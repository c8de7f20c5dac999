/**
 Where symbols occur in a function: every place that holds one is respelled by one substitution, and a
 symbol occurs if respelling it changes the function.  The reference collectors and the patch loop are
 measured against that.
 */
module Occurrence {

  import opened Mir
  import opened Wrappers

  /** New spellings for direct callees, function constants and globals. */
  datatype Spelling = Spelling(direct: string -> string, constant: string -> string, global: string -> string)

  /** No symbol, no spelling. */
  ghost predicate KeepsEmpty(h: Spelling) {
    h.direct("") == "" && h.constant("") == ""
  }

  function SubstOperand(h: Spelling, op: Operand): Operand
    decreases op
  {
    match op
    case CopyOp(p) => CopyOp(Place(p.local, SubstProjections(h, p.projections)))
    case MoveOp(p) => MoveOp(Place(p.local, SubstProjections(h, p.projections)))
    case ConstOp(FnConst(s)) => ConstOp(FnConst(h.constant(s)))
    case ConstOp(OtherConst(_)) => op
  }

  function SubstProjections(h: Spelling, projs: seq<Projection>): (r: seq<Projection>)
    ensures |r| == |projs|
    decreases projs
  {
    if projs == [] then [] else [SubstProjection(h, projs[0])] + SubstProjections(h, projs[1..])
  }

  function SubstProjection(h: Spelling, proj: Projection): Projection
    decreases proj
  {
    match proj
    case IndexProj(i) => IndexProj(SubstOperand(h, i))
    case OtherProj(_) => proj
  }

  function SubstPlace(h: Spelling, p: Place): Place {
    Place(p.local, SubstProjections(h, p.projections))
  }

  function SubstOperands(h: Spelling, ops: seq<Operand>): (r: seq<Operand>)
    ensures |r| == |ops|
  {
    if ops == [] then [] else [SubstOperand(h, ops[0])] + SubstOperands(h, ops[1..])
  }

  function SubstResult(h: Spelling, p: Option<Place>): Option<Place> {
    match p
    case None => None
    case Some(place) => Some(SubstPlace(h, place))
  }

  function SubstCallee(h: Spelling, c: Callee): Callee {
    match c
    case FnRef(s) => FnRef(h.direct(s))
    case IndirectCall(op) => IndirectCall(SubstOperand(h, op))
  }

  function SubstRValue(h: Spelling, rv: RValue): RValue {
    match rv
    case UseRV(op) => UseRV(SubstOperand(h, op))
    case UnaryRV(arg) => UnaryRV(SubstOperand(h, arg))
    case BinaryRV(l, r) => BinaryRV(SubstOperand(h, l), SubstOperand(h, r))
    case AggregateRV(fields) => AggregateRV(SubstOperands(h, fields))
    case DiscriminantRV(p) => DiscriminantRV(SubstPlace(h, p))
    case LenRV(p) => LenRV(SubstPlace(h, p))
    case CastRV(arg) => CastRV(SubstOperand(h, arg))
    case AddressOfRV(p) => AddressOfRV(SubstPlace(h, p))
    case RefRV(p) => RefRV(SubstPlace(h, p))
    case GlobalRefRV(x) => GlobalRefRV(h.global(x))
    case OtherRV(_) => rv
  }

  function SubstInstr(h: Spelling, i: Instr): Instr {
    match i
    case Assign(dest, src) => Assign(SubstPlace(h, dest), SubstRValue(h, src))
    case Call(result, callee, args) => Call(SubstResult(h, result), SubstCallee(h, callee), SubstOperands(h, args))
    case Intrinsic(result, kind, args) => Intrinsic(SubstResult(h, result), kind, SubstOperands(h, args))
    case OtherInstr(_) => i
  }

  function SubstInstrs(h: Spelling, instrs: seq<Instr>): (r: seq<Instr>)
    ensures |r| == |instrs|
  {
    if instrs == [] then [] else [SubstInstr(h, instrs[0])] + SubstInstrs(h, instrs[1..])
  }

  function SubstTerm(h: Spelling, t: Terminator): Terminator {
    match t
    case Branch(cond, thn, els) => Branch(SubstOperand(h, cond), thn, els)
    case SwitchInt(scrutinee, targets) => SwitchInt(SubstOperand(h, scrutinee), targets)
    case OtherTerm(_) => t
  }

  function SubstBlocks(h: Spelling, bs: seq<Block>): (r: seq<Block>)
    ensures |r| == |bs|
  {
    if bs == [] then [] else [Block(SubstInstrs(h, bs[0].instrs), SubstTerm(h, bs[0].term))] + SubstBlocks(h, bs[1..])
  }

  /** The function with every symbol in its code respelled. */
  function Subst(h: Spelling, f: Function): Function {
    f.(blocks := SubstBlocks(h, f.blocks))
  }

  // ---- The collectors overlook nothing and make nothing up ----

  ghost predicate Fixes(h: Spelling, refs: seq<Ref>) {
    forall r :: r in refs ==> r.sym == if r.Direct? then h.direct(r.sym) else h.constant(r.sym)
  }

  ghost predicate FixesReads(h: Spelling, names: seq<string>) {
    forall x :: x in names ==> h.global(x) == x
  }

  lemma {:induction false} FixesConcat(h: Spelling, a: seq<Ref>, b: seq<Ref>)
    ensures Fixes(h, a + b) <==> Fixes(h, a) && Fixes(h, b)
  {
    if Fixes(h, a + b) {
      assert forall r :: r in a ==> r in a + b;
      assert forall r :: r in b ==> r in a + b;
    }
  }

  lemma {:induction false} FixesReadsConcat(h: Spelling, a: seq<string>, b: seq<string>)
    ensures FixesReads(h, a + b) <==> FixesReads(h, a) && FixesReads(h, b)
  {
    if FixesReads(h, a + b) {
      assert forall x :: x in a ==> x in a + b;
      assert forall x :: x in b ==> x in a + b;
    }
  }

  lemma {:induction false} OperandIff(h: Spelling, op: Operand)
    requires KeepsEmpty(h)
    ensures SubstOperand(h, op) == op <==> Fixes(h, OperandRefs(op))
    decreases op
  {
    match op
    case CopyOp(p) => ProjectionsIff(h, p.projections);
    case MoveOp(p) => ProjectionsIff(h, p.projections);
    case ConstOp(FnConst(s)) => assert s != "" ==> Constant(s) in OperandRefs(op);
    case ConstOp(OtherConst(_)) =>
  }

  lemma {:induction false} ProjectionsIff(h: Spelling, projs: seq<Projection>)
    requires KeepsEmpty(h)
    ensures SubstProjections(h, projs) == projs <==> Fixes(h, ProjectionRefs(projs))
    decreases projs
  {
    if projs != [] {
      ProjectionIff(h, projs[0]);
      ProjectionsIff(h, projs[1..]);
      FixesConcat(h, StepRefs(projs[0]), ProjectionRefs(projs[1..]));
      SameHeadAndTail(SubstProjections(h, projs), projs);
    }
  }

  lemma {:induction false} ProjectionIff(h: Spelling, proj: Projection)
    requires KeepsEmpty(h)
    ensures SubstProjection(h, proj) == proj <==> Fixes(h, StepRefs(proj))
    decreases proj
  {
    if proj.IndexProj? {
      OperandIff(h, proj.index);
    }
  }

  lemma {:induction false} SameHeadAndTail<T>(a: seq<T>, b: seq<T>)
    requires |a| == |b| > 0
    ensures a == b <==> a[0] == b[0] && a[1..] == b[1..]
  {
    assert a == [a[0]] + a[1..] && b == [b[0]] + b[1..];
  }

  lemma {:induction false} OperandsIff(h: Spelling, ops: seq<Operand>)
    requires KeepsEmpty(h)
    ensures SubstOperands(h, ops) == ops <==> Fixes(h, OperandsRefs(ops))
  {
    if ops != [] {
      OperandIff(h, ops[0]);
      OperandsIff(h, ops[1..]);
      FixesConcat(h, OperandRefs(ops[0]), OperandsRefs(ops[1..]));
      SameHeadAndTail(SubstOperands(h, ops), ops);
    }
  }

  lemma {:induction false} ResultIff(h: Spelling, p: Option<Place>)
    requires KeepsEmpty(h)
    ensures SubstResult(h, p) == p <==> Fixes(h, ResultRefs(p))
  {
    if p.Some? {
      ProjectionsIff(h, p.value.projections);
    }
  }

  lemma {:induction false} CalleeIff(h: Spelling, c: Callee)
    requires KeepsEmpty(h)
    ensures SubstCallee(h, c) == c <==> Fixes(h, CalleeRefs(c))
  {
    match c
    case FnRef(s) => assert s != "" ==> Direct(s) in CalleeRefs(c);
    case IndirectCall(op) => OperandIff(h, op);
  }

  lemma {:induction false} RValueIff(h: Spelling, rv: RValue)
    requires KeepsEmpty(h)
    ensures SubstRValue(h, rv) == rv <==> Fixes(h, RValueRefs(rv)) && (rv.GlobalRefRV? ==> h.global(rv.name) == rv.name)
  {
    hide Fixes;
    assert Fixes(h, []) by { NothingToFix(h); }
    match rv
    case UseRV(op) => OperandIff(h, op);
    case UnaryRV(arg) => OperandIff(h, arg);
    case BinaryRV(l, r) =>
      OperandIff(h, l);
      OperandIff(h, r);
      FixesConcat(h, OperandRefs(l), OperandRefs(r));
    case AggregateRV(fields) => OperandsIff(h, fields);
    case DiscriminantRV(p) => ProjectionsIff(h, p.projections);
    case LenRV(p) => ProjectionsIff(h, p.projections);
    case CastRV(arg) => OperandIff(h, arg);
    case AddressOfRV(p) => ProjectionsIff(h, p.projections);
    case RefRV(p) => ProjectionsIff(h, p.projections);
    case GlobalRefRV(_) =>
    case OtherRV(_) =>
  }

  lemma {:induction false} NothingToFix(h: Spelling)
    ensures Fixes(h, []) && FixesReads(h, [])
  {
  }

  lemma {:induction false} InstrIff(h: Spelling, i: Instr)
    requires KeepsEmpty(h)
    ensures SubstInstr(h, i) == i <==> Fixes(h, InstrRefs(i)) && FixesReads(h, InstrReads(i))
  {
    hide Fixes;
    NothingToFix(h);
    match i
    case Assign(dest, src) =>
      RValueIff(h, src);
      ProjectionsIff(h, dest.projections);
      FixesConcat(h, RValueRefs(src), PlaceRefs(dest));
      assert src.GlobalRefRV? ==> src.name in InstrReads(i);
    case Call(result, callee, args) =>
      CalleeIff(h, callee);
      OperandsIff(h, args);
      ResultIff(h, result);
      FixesConcat(h, CalleeRefs(callee) + OperandsRefs(args), ResultRefs(result));
      FixesConcat(h, CalleeRefs(callee), OperandsRefs(args));
    case Intrinsic(result, _, args) =>
      OperandsIff(h, args);
      ResultIff(h, result);
      FixesConcat(h, OperandsRefs(args), ResultRefs(result));
    case OtherInstr(_) =>
  }

  lemma {:induction false} InstrsIff(h: Spelling, instrs: seq<Instr>)
    requires KeepsEmpty(h)
    ensures SubstInstrs(h, instrs) == instrs <==> Fixes(h, InstrsRefs(instrs)) && FixesReads(h, InstrsReads(instrs))
  {
    hide Fixes, FixesReads;
    NothingToFix(h);
    if instrs != [] {
      InstrIff(h, instrs[0]);
      InstrsIff(h, instrs[1..]);
      FixesConcat(h, InstrRefs(instrs[0]), InstrsRefs(instrs[1..]));
      FixesReadsConcat(h, InstrReads(instrs[0]), InstrsReads(instrs[1..]));
      SameHeadAndTail(SubstInstrs(h, instrs), instrs);
    }
  }

  lemma {:induction false} TermIff(h: Spelling, t: Terminator)
    requires KeepsEmpty(h)
    ensures SubstTerm(h, t) == t <==> Fixes(h, TermRefs(t))
  {
    match t
    case Branch(cond, _, _) => OperandIff(h, cond);
    case SwitchInt(scrutinee, _) => OperandIff(h, scrutinee);
    case OtherTerm(_) =>
  }

  lemma {:induction false} BlocksIff(h: Spelling, bs: seq<Block>)
    requires KeepsEmpty(h)
    ensures SubstBlocks(h, bs) == bs <==> Fixes(h, BlocksRefs(bs)) && FixesReads(h, BlocksReads(bs))
  {
    hide Fixes, FixesReads;
    NothingToFix(h);
    if bs != [] {
      InstrsIff(h, bs[0].instrs);
      TermIff(h, bs[0].term);
      BlocksIff(h, bs[1..]);
      FixesConcat(h, InstrsRefs(bs[0].instrs) + TermRefs(bs[0].term), BlocksRefs(bs[1..]));
      FixesConcat(h, InstrsRefs(bs[0].instrs), TermRefs(bs[0].term));
      FixesReadsConcat(h, InstrsReads(bs[0].instrs), BlocksReads(bs[1..]));
      SameHeadAndTail(SubstBlocks(h, bs), bs);
    }
  }

  /** A respelling changes a function exactly if it changes a symbol that was collected. */
  lemma {:induction false} UnchangedIff(h: Spelling, f: Function)
    requires KeepsEmpty(h)
    ensures Subst(h, f) == f <==> Fixes(h, FunctionRefs(f)) && FixesReads(h, FunctionReads(f))
  {
    BlocksIff(h, f.blocks);
  }

  /** Respells the function symbol `s` and nothing else. */
  function Respell(s: string): Spelling {
    var h := (x: string) => if x == s then x + "'" else x;
    Spelling(h, h, x => x)
  }

  /** The symbol stands somewhere in the function's code. */
  ghost predicate Occurs(s: string, f: Function) {
    s != "" && Subst(Respell(s), f) != f
  }

  /** What the collector visits is exactly what occurs. */
  lemma {:induction false} OccursIff(s: string, f: Function)
    ensures Occurs(s, f) <==> s != "" && exists r :: r in FunctionRefs(f) && r.sym == s
  {
    if s != "" {
      var h := Respell(s);
      UnchangedIff(h, f);
      assert s + "'" != s;
      assert FixesReads(h, FunctionReads(f));
    }
  }

  /** And so for the globals it reads. */
  lemma {:induction false} ReadIff(x: string, f: Function)
    ensures Subst(Spelling(s => s, s => s, y => if y == x then x + "'" else y), f) != f <==> x in FunctionReads(f)
  {
    var h := Spelling(s => s, s => s, y => if y == x then x + "'" else y);
    UnchangedIff(h, f);
    assert x + "'" != x;
    assert Fixes(h, FunctionRefs(f));
  }

  // ---- What the patch loop changes, and what meaning hides ----

  /** Respells direct callees only. */
  function DirectOnly(direct: string -> string): Spelling {
    Spelling(direct, s => s, s => s)
  }

  lemma {:induction false} InstrDirect(direct: string -> string, i: Instr)
    requires direct("") == ""
    ensures SubstInstr(DirectOnly(direct), i) == match i
      case Call(result, FnRef(s), args) => Call(result, FnRef(direct(s)), args)
      case _ => i
  {
    var h := DirectOnly(direct);
    assert forall rs :: AllConstant(rs) ==> Fixes(h, rs);
    match i
    case Assign(dest, src) =>
      RValueRefsConstant(src);
      RValueIff(h, src);
      ProjectionRefsConstant(dest.projections);
      ProjectionsIff(h, dest.projections);
    case Call(result, callee, args) =>
      OperandsRefsConstant(args);
      OperandsIff(h, args);
      ResultRefsConstant(result);
      ResultIff(h, result);
      if callee.IndirectCall? {
        OperandRefsConstant(callee.callee);
        OperandIff(h, callee.callee);
      }
    case Intrinsic(result, _, args) =>
      OperandsRefsConstant(args);
      OperandsIff(h, args);
      ResultRefsConstant(result);
      ResultIff(h, result);
    case OtherInstr(_) =>
  }

  lemma {:induction false} TermDirect(direct: string -> string, t: Terminator)
    requires direct("") == ""
    ensures SubstTerm(DirectOnly(direct), t) == t
  {
    TermRefsConstant(t);
    TermIff(DirectOnly(direct), t);
  }

  lemma {:induction false} InstrsPatched(renames: map<string, string>, instrs: seq<Instr>)
    requires "" !in renames
    ensures RenameInstrs(renames, instrs) == SubstInstrs(DirectOnly(s => Renamed(renames, s)), instrs)
    ensures EraseInstrs(instrs) == SubstInstrs(DirectOnly(s => ""), instrs)
  {
    if instrs != [] {
      InstrDirect(s => Renamed(renames, s), instrs[0]);
      InstrDirect(s => "", instrs[0]);
      InstrsPatched(renames, instrs[1..]);
    }
  }

  lemma {:induction false} BlocksPatched(renames: map<string, string>, bs: seq<Block>)
    requires "" !in renames
    ensures RenameBlocks(renames, bs) == SubstBlocks(DirectOnly(s => Renamed(renames, s)), bs)
    ensures EraseBlocks(bs) == SubstBlocks(DirectOnly(s => ""), bs)
  {
    if bs != [] {
      InstrsPatched(renames, bs[0].instrs);
      TermDirect(s => Renamed(renames, s), bs[0].term);
      TermDirect(s => "", bs[0].term);
      BlocksPatched(renames, bs[1..]);
    }
  }

  /** Patching respells the name and the direct callees; the skeleton blanks out the same and nothing else. */
  lemma {:induction false} PatchRespells(renames: map<string, string>, f: Function)
    requires "" !in renames
    ensures RenameFunction(renames, f) == Subst(DirectOnly(s => Renamed(renames, s)), f).(name := Renamed(renames, f.name))
    ensures Skeleton(f) == Subst(DirectOnly(s => ""), f).(name := "")
  {
    BlocksPatched(renames, f.blocks);
  }
}
