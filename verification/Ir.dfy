/**
 The expression and statement trees the stdlib injector walks.  Identifiers, field accesses and
 calls are spelled out; every other node is a `Shape`: its tag, the payload that holds no node, and
 its child nodes in walking order.
 */
module Ir {

  import opened Wrappers

  datatype Type =
    | Named(pkg: string, name: string, args: seq<Type>, builtin: bool)
    | Optional(inner: Type)
    | FnType(params: seq<Type>, ret: Type)
    | OtherType(text: string)

  datatype IdentKind = Unknown | Local | Param | Fn | Variant | TypeName | Global | Builtin

  datatype Tag =
    | ExprStmt | ReturnStmt | LetStmt | AssignStmt | IfStmt | ForStmt | MatchStmt | ChanSendStmt | Block
    | IntrinsicCall | Binary | Unary | Index | TupleAccess | Question | Coalesce | IfExpr | IfLet | MatchExpr
    | MatchArm | TupleLit | ListLit | MapLit | StructLit | VariantLit | RangeLit
    | StringLit | ClosureExpr | BlockExpr | DeferStmt | Parameter | FieldDecl | LetDecl | FnDecl | Pattern
    | LoopExpr | BreakStmt | Leaf

  datatype Node =
    | Ident(kind: IdentKind, name: string, ty: Type)
    | Field(x: Node, name: string, ty: Type)
    | Call(callee: Node, typeArgs: seq<Type>, argNames: seq<string>, args: seq<Node>, ty: Type)
    | MethodCall(recv: Node, name: string, typeArgs: seq<Type>, argNames: seq<string>, args: seq<Node>, ty: Type)
    | Shape(tag: Tag, payload: string, kids: seq<Node>, ty: Type)

  /** The walker does not descend into `loop` bodies and `break` values. */
  predicate Walks(tag: Tag) {
    tag != LoopExpr && tag != BreakStmt
  }

  /** The splice visitor overwrites expression slots of these shapes only. */
  predicate Splices(tag: Tag) {
    tag in {ExprStmt, ReturnStmt, LetStmt, AssignStmt, IfStmt, ForStmt, MatchStmt, ChanSendStmt, Block,
            IntrinsicCall, Binary, Unary, Index, TupleAccess, Question, Coalesce, IfExpr, IfLet, MatchExpr,
            MatchArm, TupleLit, ListLit, MapLit, StructLit, VariantLit, RangeLit}
  }

  /** What the splice visitor passes over. */
  lemma {:induction false} UncoveredShapes(tag: Tag)
    ensures !Splices(tag) <==> tag in [StringLit, ClosureExpr, BlockExpr, DeferStmt, Parameter, FieldDecl, LetDecl, FnDecl, Pattern, LoopExpr, BreakStmt, Leaf]
  {
  }

  /** What the passes can do with the slot a node sits in. */
  datatype Slot = Spliced | Walked | Skipped

  /** The slot of the children of a call or field access. */
  function ExprSlot(slot: Slot): Slot {
    if slot == Skipped then Skipped else Spliced
  }

  function KidSlot(slot: Slot, tag: Tag): Slot {
    if slot == Skipped || !Walks(tag) then Skipped else if Splices(tag) then Spliced else Walked
  }

  // ---- Receivers of stdlib methods ----

  function BuiltinOwner(name: string): string {
    if name == "List" then "collections"
    else if name == "Iter" then "iter"
    else if name == "Option" then "option"
    else if name == "Result" then "result"
    else if name == "Error" then "error"
    else ""
  }

  /** The module and type that own the methods of a receiver of type `t`. */
  function ReceiverOwner(t: Type): Option<(string, string)> {
    match t
    case Named(pkg, name, _, builtin) =>
      var owner := if pkg == "" && builtin then BuiltinOwner(name) else pkg;
      if name == "" || owner == "" then None else Some((owner, name))
    case Optional(_) => Some(("option", "Option"))
    case FnType(_, _) => None
    case OtherType(_) => None
  }

  /** The concrete arguments for the owner's generic parameters. */
  function OwnerArgs(t: Type): seq<Type> {
    match t
    case Named(_, _, args, _) => args
    case Optional(inner) => [inner]
    case FnType(_, _) => []
    case OtherType(_) => []
  }

  /** A receiver `T?` has the methods and arguments of `Option<T>`. */
  lemma {:induction false} OptionalIsOption(t: Type)
    ensures ReceiverOwner(Optional(t)) == ReceiverOwner(Named("", "Option", [t], true)) == Some(("option", "Option"))
    ensures OwnerArgs(Optional(t)) == OwnerArgs(Named("", "Option", [t], true))
  {
  }

  /** The owner of a named type is its package, or the home module of a builtin. */
  lemma {:induction false} NamedOwnerIff(t: Type, m: string, ty: string)
    requires t.Named? && ty != ""
    ensures ReceiverOwner(t) == Some((m, ty)) <==>
      && t.name == ty && m != ""
      && (t.pkg == m || (t.pkg == "" && t.builtin
            && (ty, m) in [("List", "collections"), ("Iter", "iter"), ("Option", "option"), ("Result", "result"), ("Error", "error")]))
  {
    var home := [("List", "collections"), ("Iter", "iter"), ("Option", "option"), ("Result", "result"), ("Error", "error")];
    assert home[0] == ("List", "collections") && home[1] == ("Iter", "iter") && home[2] == ("Option", "option") && home[3] == ("Result", "result") && home[4] == ("Error", "error");
    assert "List"[0] == 'L' && "Iter"[0] == 'I' && "Option"[0] == 'O' && "Result"[0] == 'R' && "Error"[0] == 'E';
  }

  function TypesOf(ns: seq<Node>): (ts: seq<Type>)
    ensures |ts| == |ns|
    ensures forall i :: 0 <= i < |ns| ==> ts[i] == ns[i].ty
  {
    seq(|ns|, i requires 0 <= i < |ns| => ns[i].ty)
  }
}
