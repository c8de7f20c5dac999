/**
 Rewriting calls into the standard library so that they name injected definitions: bare and
 qualified callees, method calls and reads of globals are looked up in the tables of the scope they
 are written in, and come to name the emitted symbol of what they resolve to.
 */
module Link {

  import opened Ir
  import opened Mangle
  import opened Wrappers

  // ---- Items and their emitted symbols ----

  datatype MethodKey = MethodKey(owner: string, typeName: string, name: string)

  datatype Key =
    | StdFn(owner: string, name: string)
    | StdMethod(method_: MethodKey)
    | StdLet(owner: string, name: string)
    | UserFn(name: string)

  function Symbol(k: Key): string {
    match k
    case StdFn(m, f) => StdlibSymbol(m, f)
    case StdMethod(MethodKey(m, t, f)) => StdlibMethodSymbol(m, t, f)
    case StdLet(m, x) => StdlibSymbol(m, x)
    case UserFn(f) => f
  }

  /** What a call resolves to: a definition with a body, or a runtime symbol. */
  datatype Target = Def(key: Key) | Runtime(sym: string)

  function TargetSymbol(t: Target): string {
    match t
    case Def(k) => Symbol(k)
    case Runtime(s) => s
  }

  /**
   How names resolve in one scope.  Bare callees, qualified callees, methods and global reads in
   these tables are rewritten; names in `own` resolve to the scope's own functions as they are.
   */
  datatype Tables = Tables(
    bare: map<string, Target>,
    qual: map<(string, string), Target>,
    methods: set<MethodKey>,
    globals: map<string, Key>,
    own: map<string, Key>)

  predicate IsLocal(k: IdentKind) {
    k == Local || k == Param
  }

  function MethodTarget(t: Tables, recvTy: Type, name: string): Option<MethodKey> {
    match ReceiverOwner(recvTy)
    case None => None
    case Some((m, ty)) => if name != "" && MethodKey(m, ty, name) in t.methods then Some(MethodKey(m, ty, name)) else None
  }

  /** The target the rewriters take a callee to have, going by its spelling alone. */
  function SpelledTarget(t: Tables, callee: Node): Option<Target> {
    match callee
    case Ident(_, name, _) => if name in t.bare then Some(t.bare[name]) else None
    case Field(Ident(_, q, _), name, _) => if (q, name) in t.qual then Some(t.qual[(q, name)]) else None
    case _ => None
  }

  /** The target a callee really has: a local binding shadows the tables. */
  function CalleeTarget(t: Tables, callee: Node): Option<Target> {
    match callee
    case Ident(k, name, _) =>
      if IsLocal(k) then None
      else if name in t.bare then Some(t.bare[name])
      else if name in t.own then Some(Def(t.own[name])) else None
    case Field(Ident(k, _, _), _, _) => if IsLocal(k) then None else SpelledTarget(t, callee)
    case _ => None
  }

  // ---- The rewriting ----

  /** The free call that replaces a method call: receiver first, owner type arguments first. */
  function FreeCall(k: MethodKey, recv: Node, typeArgs: seq<Type>, argNames: seq<string>, args: seq<Node>, recvTy: Type, ty: Type): Node {
    Call(Ident(Fn, Symbol(StdMethod(k)), FnType(TypesOf([recv] + args), ty)),
         OwnerArgs(recvTy) + typeArgs, [""] + argNames, [recv] + args, ty)
  }

  /** One walk over a tree, rewriting what the tables name.  The in-place passes are this with small tables. */
  function Rewrite(t: Tables, slot: Slot, n: Node): Node
    decreases n
  {
    if slot == Skipped then n
    else
      match n
      case Ident(k, name, ty) =>
        if k == Global && name in t.globals then Ident(Global, Symbol(t.globals[name]), ty) else n
      case Field(x, name, ty) => Field(Rewrite(t, Spliced, x), name, ty)
      case Call(callee, typeArgs, argNames, args, ty) =>
        var callee' :=
          match SpelledTarget(t, callee)
          case Some(target) => Ident(Fn, TargetSymbol(target), callee.ty)
          case None => Rewrite(t, Spliced, callee);
        Call(callee', typeArgs, argNames, RewriteAll(t, Spliced, args), ty)
      case MethodCall(recv, name, typeArgs, argNames, args, ty) =>
        var recv', args' := Rewrite(t, Spliced, recv), RewriteAll(t, Spliced, args);
        (match MethodTarget(t, recv.ty, name)
         case Some(k) =>
           if slot == Spliced then FreeCall(k, recv', typeArgs, argNames, args', recv.ty, ty)
           else MethodCall(recv', name, typeArgs, argNames, args', ty)
         case None => MethodCall(recv', name, typeArgs, argNames, args', ty))
      case Shape(tag, payload, kids, ty) => Shape(tag, payload, RewriteAll(t, KidSlot(slot, tag), kids), ty)
  }

  function RewriteAll(t: Tables, slot: Slot, ns: seq<Node>): (r: seq<Node>)
    ensures |r| == |ns|
    decreases ns
  {
    if ns == [] then [] else [Rewrite(t, slot, ns[0])] + RewriteAll(t, slot, ns[1..])
  }

  lemma {:induction false} RewriteKeepsType(t: Tables, slot: Slot, n: Node)
    ensures Rewrite(t, slot, n).ty == n.ty
  {
  }

  lemma {:induction false} RewriteSkipped(t: Tables, ns: seq<Node>)
    ensures RewriteAll(t, Skipped, ns) == ns
  {
    if ns != [] {
      RewriteSkipped(t, ns[1..]);
    }
  }

  function GlobalsOnly(t: Tables): Tables {
    Tables(map[], map[], {}, t.globals, map[])
  }

  // ---- Spelling against resolution ----

  /** The callee, or the qualifier of the callee, is bound locally. */
  predicate LocallyBound(callee: Node) {
    match callee
    case Ident(k, _, _) => IsLocal(k)
    case Field(Ident(k, _, _), _, _) => IsLocal(k)
    case _ => false
  }

  /** A call of a parameter that is named like a function of the module comes to call the function. */
  lemma {:induction false} ParameterCallRedirected()
    ensures
      var k := StdFn("strings", "trim");
      var t := Tables(map["trim" := Def(k)], map[], {}, map[], map[]);
      var call := Call(Ident(Param, "trim", OtherType("fn")), [], [], [], OtherType("String"));
      CalleeTarget(t, call.callee) == None && Rewrite(t, Spliced, call) == call.(callee := Ident(Fn, Symbol(k), OtherType("fn")))
  {
  }
}
