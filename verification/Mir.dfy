/**
 The slice of the mid-level IR that library mode looks at: functions made of basic
 blocks, and every place a function symbol can hide in them.  Types, spans and the
 many code-generation flags carry no symbol and are not represented; node kinds the
 collectors ignore are the `Other...` constructors.
 */
module Mir {

  import opened Wrappers

  datatype Const = FnConst(symbol: string) | OtherConst(text: string)

  datatype Operand =
    | CopyOp(place: Place)
    | MoveOp(place: Place)
    | ConstOp(value: Const)

  datatype Projection = IndexProj(index: Operand) | OtherProj(text: string)

  datatype Place = Place(local: int, projections: seq<Projection>)

  datatype Callee = FnRef(symbol: string) | IndirectCall(callee: Operand)

  datatype RValue =
    | UseRV(op: Operand)
    | UnaryRV(arg: Operand)
    | BinaryRV(left: Operand, right: Operand)
    | AggregateRV(fields: seq<Operand>)
    | DiscriminantRV(place: Place)
    | LenRV(place: Place)
    | CastRV(arg: Operand)
    | AddressOfRV(place: Place)
    | RefRV(place: Place)
    | GlobalRefRV(name: string)
    | OtherRV(text: string)

  datatype Instr =
    | Assign(dest: Place, src: RValue)
    | Call(result: Option<Place>, callee: Callee, args: seq<Operand>)
    | Intrinsic(result: Option<Place>, kind: int, args: seq<Operand>)
    | OtherInstr(text: string)

  datatype Terminator =
    | Branch(cond: Operand, thn: int, els: int)
    | SwitchInt(scrutinee: Operand, targets: seq<int>)
    | OtherTerm(text: string)

  datatype Block = Block(instrs: seq<Instr>, term: Terminator)

  datatype Function = Function(name: string, blocks: seq<Block>, exported: bool, exportSymbol: string)

  /** A reference to a function symbol: the callee of a direct call, or a function constant. */
  datatype Ref = Direct(sym: string) | Constant(sym: string)

  // ---- The reference collectors, as the sequence of symbols they visit ----

  function OperandRefs(op: Operand): seq<Ref>
    decreases op
  {
    match op
    case CopyOp(p) => ProjectionRefs(p.projections)
    case MoveOp(p) => ProjectionRefs(p.projections)
    case ConstOp(FnConst(s)) => if s != "" then [Constant(s)] else []
    case ConstOp(OtherConst(_)) => []
  }

  function ProjectionRefs(projs: seq<Projection>): seq<Ref>
    decreases projs
  {
    if projs == [] then [] else StepRefs(projs[0]) + ProjectionRefs(projs[1..])
  }

  function StepRefs(proj: Projection): seq<Ref>
    decreases proj
  {
    match proj
    case IndexProj(i) => OperandRefs(i)
    case OtherProj(_) => []
  }

  function PlaceRefs(p: Place): seq<Ref> {
    ProjectionRefs(p.projections)
  }

  function OperandsRefs(ops: seq<Operand>): seq<Ref> {
    if ops == [] then [] else OperandRefs(ops[0]) + OperandsRefs(ops[1..])
  }

  function ResultRefs(p: Option<Place>): seq<Ref> {
    match p
    case None => []
    case Some(place) => PlaceRefs(place)
  }

  function CalleeRefs(c: Callee): seq<Ref> {
    match c
    case FnRef(s) => if s != "" then [Direct(s)] else []
    case IndirectCall(op) => OperandRefs(op)
  }

  function RValueRefs(rv: RValue): seq<Ref> {
    match rv
    case UseRV(op) => OperandRefs(op)
    case UnaryRV(arg) => OperandRefs(arg)
    case BinaryRV(l, r) => OperandRefs(l) + OperandRefs(r)
    case AggregateRV(fields) => OperandsRefs(fields)
    case DiscriminantRV(p) => PlaceRefs(p)
    case LenRV(p) => PlaceRefs(p)
    case CastRV(arg) => OperandRefs(arg)
    case AddressOfRV(p) => PlaceRefs(p)
    case RefRV(p) => PlaceRefs(p)
    case GlobalRefRV(_) => []
    case OtherRV(_) => []
  }

  function InstrRefs(i: Instr): seq<Ref> {
    match i
    case Assign(dest, src) => RValueRefs(src) + PlaceRefs(dest)
    case Call(result, callee, args) => CalleeRefs(callee) + OperandsRefs(args) + ResultRefs(result)
    case Intrinsic(result, _, args) => OperandsRefs(args) + ResultRefs(result)
    case OtherInstr(_) => []
  }

  function InstrsRefs(instrs: seq<Instr>): seq<Ref> {
    if instrs == [] then [] else InstrRefs(instrs[0]) + InstrsRefs(instrs[1..])
  }

  function TermRefs(t: Terminator): seq<Ref> {
    match t
    case Branch(cond, _, _) => OperandRefs(cond)
    case SwitchInt(scrutinee, _) => OperandRefs(scrutinee)
    case OtherTerm(_) => []
  }

  function BlocksRefs(bs: seq<Block>): seq<Ref> {
    if bs == [] then [] else InstrsRefs(bs[0].instrs) + TermRefs(bs[0].term) + BlocksRefs(bs[1..])
  }

  /** Everything the collector visits in one function, in visiting order. */
  function FunctionRefs(f: Function): seq<Ref> {
    BlocksRefs(f.blocks)
  }

  /** A module-level value; its initialiser is a function of its own, outside the module's function list. */
  datatype Global = Global(name: string, init: Option<Function>)

  // ---- Reads of globals, which the collectors pass over ----

  function InstrReads(i: Instr): seq<string> {
    match i
    case Assign(_, GlobalRefRV(x)) => [x]
    case _ => []
  }

  function InstrsReads(instrs: seq<Instr>): seq<string> {
    if instrs == [] then [] else InstrReads(instrs[0]) + InstrsReads(instrs[1..])
  }

  function BlocksReads(bs: seq<Block>): seq<string> {
    if bs == [] then [] else InstrsReads(bs[0].instrs) + BlocksReads(bs[1..])
  }

  function FunctionReads(f: Function): seq<string> {
    BlocksReads(f.blocks)
  }

  // ---- Patching direct callees ----

  function Renamed(renames: map<string, string>, sym: string): string {
    if sym in renames then renames[sym] else sym
  }

  function RenameInstr(renames: map<string, string>, i: Instr): Instr {
    match i
    case Call(result, FnRef(s), args) => Call(result, FnRef(Renamed(renames, s)), args)
    case _ => i
  }

  function RenameInstrs(renames: map<string, string>, instrs: seq<Instr>): seq<Instr> {
    if instrs == [] then [] else [RenameInstr(renames, instrs[0])] + RenameInstrs(renames, instrs[1..])
  }

  function RenameBlocks(renames: map<string, string>, bs: seq<Block>): seq<Block> {
    if bs == [] then []
    else [bs[0].(instrs := RenameInstrs(renames, bs[0].instrs))] + RenameBlocks(renames, bs[1..])
  }

  function RenameFunction(renames: map<string, string>, f: Function): Function {
    f.(name := Renamed(renames, f.name), blocks := RenameBlocks(renames, f.blocks))
  }

  function RenameRef(renames: map<string, string>, r: Ref): Ref {
    match r
    case Direct(s) => Direct(Renamed(renames, s))
    case Constant(_) => r
  }

  function RenameRefs(renames: map<string, string>, rs: seq<Ref>): (out: seq<Ref>)
    ensures |out| == |rs|
    ensures forall i :: 0 <= i < |rs| ==> out[i] == RenameRef(renames, rs[i])
  {
    seq(|rs|, i requires 0 <= i < |rs| => RenameRef(renames, rs[i]))
  }

  lemma {:induction false} RenameRefsConcat(renames: map<string, string>, a: seq<Ref>, b: seq<Ref>)
    ensures RenameRefs(renames, a + b) == RenameRefs(renames, a) + RenameRefs(renames, b)
  {
  }

  lemma {:induction false} RenameConstants(renames: map<string, string>, a: seq<Ref>)
    requires AllConstant(a)
    ensures RenameRefs(renames, a) == a
  {
    assert forall i :: 0 <= i < |a| ==> a[i] in a;
  }

  /** Patching a function renames its direct references in place and leaves its constants alone. */
  lemma {:induction false} RenameInstrsRefs(renames: map<string, string>, instrs: seq<Instr>)
    requires "" !in renames.Values && "" !in renames
    ensures InstrsRefs(RenameInstrs(renames, instrs)) == RenameRefs(renames, InstrsRefs(instrs))
  {
    if instrs != [] {
      RenameInstrRefs(renames, instrs[0]);
      RenameInstrsRefs(renames, instrs[1..]);
      RenameRefsConcat(renames, InstrRefs(instrs[0]), InstrsRefs(instrs[1..]));
      assert RenameInstrs(renames, instrs)[1..] == RenameInstrs(renames, instrs[1..]);
    }
  }

  lemma {:induction false} RenameInstrRefs(renames: map<string, string>, i: Instr)
    requires "" !in renames.Values && "" !in renames
    ensures InstrRefs(RenameInstr(renames, i)) == RenameRefs(renames, InstrRefs(i))
  {
    hide RenameRefs, OperandsRefs, ResultRefs, OperandRefs, RValueRefs, ProjectionRefs;
    if i.Call? {
      RenameCallRefs(renames, i);
    } else if i.Assign? {
      RValueRefsConstant(i.src);
      ProjectionRefsConstant(i.dest.projections);
      RenameConstants(renames, InstrRefs(i));
    } else if i.Intrinsic? {
      OperandsRefsConstant(i.args);
      ResultRefsConstant(i.result);
      RenameConstants(renames, InstrRefs(i));
    }
  }

  lemma {:induction false} RenameCallRefs(renames: map<string, string>, i: Instr)
    requires "" !in renames.Values && "" !in renames && i.Call?
    ensures InstrRefs(RenameInstr(renames, i)) == RenameRefs(renames, InstrRefs(i))
  {
    hide RenameRefs, OperandsRefs, ResultRefs, OperandRefs;
    var head, rest := CalleeRefs(i.callee), OperandsRefs(i.args) + ResultRefs(i.result);
    OperandsRefsConstant(i.args);
    ResultRefsConstant(i.result);
    RenameConstants(renames, rest);
    RenameRefsConcat(renames, head, rest);
    RenameCalleeRefs(renames, i.callee);
    var callee' := RenameInstr(renames, i).callee;
    assert InstrRefs(i) == head + rest;
    assert InstrRefs(RenameInstr(renames, i)) == CalleeRefs(callee') + rest;
  }

  lemma {:induction false} RenameCalleeRefs(renames: map<string, string>, c: Callee)
    requires "" !in renames.Values && "" !in renames
    ensures CalleeRefs(if c.FnRef? then FnRef(Renamed(renames, c.symbol)) else c) == RenameRefs(renames, CalleeRefs(c))
  {
    if c.IndirectCall? {
      hide RenameRefs;
      OperandRefsConstant(c.callee);
      RenameConstants(renames, CalleeRefs(c));
    }
  }

  lemma {:induction false} RenameBlocksRefs(renames: map<string, string>, bs: seq<Block>)
    requires "" !in renames.Values && "" !in renames
    ensures BlocksRefs(RenameBlocks(renames, bs)) == RenameRefs(renames, BlocksRefs(bs))
  {
    if bs != [] {
      RenameInstrsRefs(renames, bs[0].instrs);
      TermRefsConstant(bs[0].term);
      RenameConstants(renames, TermRefs(bs[0].term));
      RenameBlocksRefs(renames, bs[1..]);
      RenameRefsConcat(renames, InstrsRefs(bs[0].instrs), TermRefs(bs[0].term));
      RenameRefsConcat(renames, InstrsRefs(bs[0].instrs) + TermRefs(bs[0].term), BlocksRefs(bs[1..]));
      assert RenameBlocks(renames, bs)[1..] == RenameBlocks(renames, bs[1..]);
    }
  }

  ghost predicate AllConstant(rs: seq<Ref>) {
    forall r :: r in rs ==> r.Constant?
  }

  lemma {:induction false} OperandRefsConstant(op: Operand)
    ensures AllConstant(OperandRefs(op))
    decreases op
  {
    match op
    case CopyOp(p) => ProjectionRefsConstant(p.projections);
    case MoveOp(p) => ProjectionRefsConstant(p.projections);
    case ConstOp(_) =>
  }

  lemma {:induction false} ProjectionRefsConstant(projs: seq<Projection>)
    ensures AllConstant(ProjectionRefs(projs))
    decreases projs
  {
    if projs != [] {
      StepRefsConstant(projs[0]);
      ProjectionRefsConstant(projs[1..]);
    }
  }

  lemma {:induction false} StepRefsConstant(proj: Projection)
    ensures AllConstant(StepRefs(proj))
    decreases proj
  {
    if proj.IndexProj? {
      OperandRefsConstant(proj.index);
    }
  }

  lemma {:induction false} OperandsRefsConstant(ops: seq<Operand>)
    ensures AllConstant(OperandsRefs(ops))
  {
    if ops != [] {
      OperandRefsConstant(ops[0]);
      OperandsRefsConstant(ops[1..]);
    }
  }

  lemma {:induction false} ResultRefsConstant(p: Option<Place>)
    ensures AllConstant(ResultRefs(p))
  {
    if p.Some? {
      ProjectionRefsConstant(p.value.projections);
    }
  }

  lemma {:induction false} TermRefsConstant(t: Terminator)
    ensures AllConstant(TermRefs(t))
  {
    match t
    case Branch(cond, _, _) => OperandRefsConstant(cond);
    case SwitchInt(scrutinee, _) => OperandRefsConstant(scrutinee);
    case OtherTerm(_) =>
  }

  lemma {:induction false} RValueRefsConstant(rv: RValue)
    ensures AllConstant(RValueRefs(rv))
  {
    match rv
    case UseRV(op) => OperandRefsConstant(op);
    case UnaryRV(arg) => OperandRefsConstant(arg);
    case BinaryRV(l, r) => OperandRefsConstant(l); OperandRefsConstant(r);
    case AggregateRV(fields) => OperandsRefsConstant(fields);
    case DiscriminantRV(p) => ProjectionRefsConstant(p.projections);
    case LenRV(p) => ProjectionRefsConstant(p.projections);
    case CastRV(arg) => OperandRefsConstant(arg);
    case AddressOfRV(p) => ProjectionRefsConstant(p.projections);
    case RefRV(p) => ProjectionRefsConstant(p.projections);
    case GlobalRefRV(_) =>
    case OtherRV(_) =>
  }

  // ---- What is left of a function once its own name and its direct callees are hidden ----

  function EraseInstr(i: Instr): Instr {
    match i
    case Call(result, FnRef(_), args) => Call(result, FnRef(""), args)
    case _ => i
  }

  function EraseInstrs(instrs: seq<Instr>): seq<Instr> {
    if instrs == [] then [] else [EraseInstr(instrs[0])] + EraseInstrs(instrs[1..])
  }

  function EraseBlocks(bs: seq<Block>): seq<Block> {
    if bs == [] then [] else [bs[0].(instrs := EraseInstrs(bs[0].instrs))] + EraseBlocks(bs[1..])
  }

  function Skeleton(f: Function): Function {
    f.(name := "", blocks := EraseBlocks(f.blocks))
  }

  lemma {:induction false} EraseRenamedInstrs(renames: map<string, string>, instrs: seq<Instr>)
    ensures EraseInstrs(RenameInstrs(renames, instrs)) == EraseInstrs(instrs)
  {
    if instrs != [] {
      EraseRenamedInstrs(renames, instrs[1..]);
      assert RenameInstrs(renames, instrs)[1..] == RenameInstrs(renames, instrs[1..]);
    }
  }

  lemma {:induction false} EraseRenamedBlocks(renames: map<string, string>, bs: seq<Block>)
    ensures EraseBlocks(RenameBlocks(renames, bs)) == EraseBlocks(bs)
  {
    if bs != [] {
      EraseRenamedInstrs(renames, bs[0].instrs);
      EraseRenamedBlocks(renames, bs[1..]);
      assert RenameBlocks(renames, bs)[1..] == RenameBlocks(renames, bs[1..]);
    }
  }

  lemma {:induction false} RenamedInstrsReads(renames: map<string, string>, instrs: seq<Instr>)
    ensures InstrsReads(RenameInstrs(renames, instrs)) == InstrsReads(instrs)
  {
    if instrs != [] {
      RenamedInstrsReads(renames, instrs[1..]);
      assert RenameInstrs(renames, instrs)[1..] == RenameInstrs(renames, instrs[1..]);
    }
  }

  /** Patching changes no read of a global. */
  lemma {:induction false} RenamedBlocksReads(renames: map<string, string>, bs: seq<Block>)
    ensures BlocksReads(RenameBlocks(renames, bs)) == BlocksReads(bs)
  {
    if bs != [] {
      RenamedInstrsReads(renames, bs[0].instrs);
      RenamedBlocksReads(renames, bs[1..]);
      assert RenameBlocks(renames, bs)[1..] == RenameBlocks(renames, bs[1..]);
    }
  }
}
