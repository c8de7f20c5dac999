/**
 What programs mean before and after linking.  Before, a call finds its target through the scope it
 is written in and a method of an interface through the receiver's value; after, every definition is
 a free function or global under one emitted symbol, and calls name those symbols.
 */
module Meaning {

  import opened Ir
  import opened Link
  import opened Wrappers

  // ---- Evaluators ----

  /** How a receiver's value implements an interface method: by which method, on what `self`, with what owner arguments. */
  datatype Impl<+D> = Impl(key: MethodKey, self: D, ownerArgs: seq<Type>)

  /**
   An arbitrary compositional semantics over a domain `D`.  `run` runs a body with its generics and
   parameters bound; `value` is a function named as a value, `dispatch` what a receiver's value does for
   an interface method, and `cut` stands for running out of depth.
   */
  datatype Semantics<!D> = Semantics(
    ident: (IdentKind, string, Type) -> D,
    field: (D, string) -> D,
    call: (D, seq<Type>, seq<string>, seq<D>) -> D,
    method_: (D, Type, string, seq<Type>, seq<string>, seq<D>) -> D,
    shape: (Tag, string, Type, seq<D>) -> D,
    runtime: (string, seq<Type>, seq<string>, seq<D>) -> D,
    runtimeValue: string -> D,
    run: (map<string, Type>, map<string, D>, D) -> D,
    value: (string, seq<string>, seq<string>, D) -> D,
    dispatch: (D, MethodKey) -> Option<Impl<D>>,
    global: D -> D,
    cut: D)

  function Tail<T>(s: seq<T>): seq<T> {
    if s == [] then [] else s[1..]
  }

  /** Generics bound in order, as far as both go; a later one of the same name hides an earlier one. */
  function BindTypes(names: seq<string>, types: seq<Type>): map<string, Type> {
    if names == [] || types == [] then map[]
    else map[names[0] := types[0]] + BindTypes(names[1..], types[1..])
  }

  /** Arguments bound by keyword, or else to the parameter in their place. */
  function BindArgs<D>(params: seq<string>, argNames: seq<string>, ds: seq<D>): map<string, D>
    decreases |ds|
  {
    if ds == [] then map[]
    else
      var rest := BindArgs(Tail(params), Tail(argNames), ds[1..]);
      if argNames != [] && argNames[0] != "" then map[argNames[0] := ds[0]] + rest
      else if params != [] then map[params[0] := ds[0]] + rest
      else rest
  }

  // ---- Programs as written ----

  datatype Scope = User | Std(owner: string)

  /** A definition as written; a method also has its owner's generics, and `self` besides its parameters. */
  datatype Code = Code(scope: Scope, owner: Option<seq<string>>, generics: seq<string>, params: seq<string>, body: Node)

  /** `impls` holds the interface methods, each with the methods of concrete types that may implement it. */
  datatype Program = Program(defs: map<Key, Code>, tables: map<Scope, Tables>, impls: map<MethodKey, set<MethodKey>>)

  function ScopeTables(p: Program, scope: Scope): Tables {
    if scope in p.tables then p.tables[scope] else Tables(map[], map[], {}, map[], map[])
  }

  /** A method as a free function: the owner's generics first, `self` first. */
  function FreeGenerics(c: Code): seq<string> {
    match c.owner
    case None => c.generics
    case Some(generics) => generics + c.generics
  }

  function FreeParams(c: Code): seq<string> {
    if c.owner.Some? then ["self"] + c.params else c.params
  }

  function OwnerGenerics(c: Code): seq<string> {
    match c.owner
    case None => []
    case Some(generics) => generics
  }

  /** A method run as declared: the receiver's arguments bind the owner's generics, and `self` is the receiver. */
  ghost function RunMethod<D>(sem: Semantics<D>, c: Code, ownerArgs: seq<Type>, typeArgs: seq<Type>, argNames: seq<string>, d: D, ds: seq<D>, body: D): D {
    sem.run(BindTypes(OwnerGenerics(c), ownerArgs) + BindTypes(c.generics, typeArgs), map["self" := d] + BindArgs(c.params, argNames, ds), body)
  }

  ghost function RunFree<D>(sem: Semantics<D>, generics: seq<string>, params: seq<string>, typeArgs: seq<Type>, argNames: seq<string>, ds: seq<D>, body: D): D {
    sem.run(BindTypes(generics, typeArgs), BindArgs(params, argNames, ds), body)
  }

  /** What a node written in `scope` means, following definitions to depth `depth`. */
  ghost function Before<D>(sem: Semantics<D>, p: Program, depth: nat, scope: Scope, n: Node): D
    decreases depth, n
  {
    var t := ScopeTables(p, scope);
    match n
    case Ident(k, name, ty) =>
      if k == Global && name in t.globals then
        if depth == 0 then sem.cut else sem.global(BodyBefore(sem, p, depth - 1, t.globals[name]))
      else
        (match CalleeTarget(t, n)
         case Some(target) => if depth == 0 then sem.cut else ValueBefore(sem, p, depth - 1, target)
         case None => sem.ident(k, name, ty))
    case Field(x, name, _) =>
      (match CalleeTarget(t, n)
       case Some(target) => if depth == 0 then sem.cut else ValueBefore(sem, p, depth - 1, target)
       case None => sem.field(Before(sem, p, depth, scope, x), name))
    case Call(callee, typeArgs, argNames, args, _) =>
      var ds := BeforeAll(sem, p, depth, scope, args);
      (match CalleeTarget(t, callee)
       case Some(Def(k)) => if depth == 0 then sem.cut else CallBefore(sem, p, depth - 1, k, typeArgs, argNames, ds)
       case Some(Runtime(s)) => sem.runtime(s, typeArgs, argNames, ds)
       case None => sem.call(Before(sem, p, depth, scope, callee), typeArgs, argNames, ds))
    case MethodCall(recv, name, typeArgs, argNames, args, _) =>
      var d, ds := Before(sem, p, depth, scope, recv), BeforeAll(sem, p, depth, scope, args);
      (match MethodTarget(t, recv.ty, name)
       case Some(k) =>
         if depth == 0 then sem.cut else DispatchBefore(sem, p, depth - 1, k, recv.ty, typeArgs, argNames, d, ds)
       case None => sem.method_(d, recv.ty, name, typeArgs, argNames, ds))
    case Shape(tag, payload, kids, ty) => sem.shape(tag, payload, ty, BeforeAll(sem, p, depth, scope, kids))
  }

  ghost function BeforeAll<D>(sem: Semantics<D>, p: Program, depth: nat, scope: Scope, ns: seq<Node>): seq<D>
    decreases depth, ns
  {
    if ns == [] then [] else [Before(sem, p, depth, scope, ns[0])] + BeforeAll(sem, p, depth, scope, ns[1..])
  }

  ghost function BodyBefore<D>(sem: Semantics<D>, p: Program, depth: nat, k: Key): D
    decreases depth
  {
    if k !in p.defs then sem.cut else Before(sem, p, depth, p.defs[k].scope, p.defs[k].body)
  }

  ghost function CallBefore<D>(sem: Semantics<D>, p: Program, depth: nat, k: Key, typeArgs: seq<Type>, argNames: seq<string>, ds: seq<D>): D
    decreases depth
  {
    if k !in p.defs then sem.cut
    else RunFree(sem, FreeGenerics(p.defs[k]), FreeParams(p.defs[k]), typeArgs, argNames, ds, Before(sem, p, depth, p.defs[k].scope, p.defs[k].body))
  }

  /** A function named as a value; which function it is shows in its symbol. */
  ghost function ValueBefore<D>(sem: Semantics<D>, p: Program, depth: nat, target: Target): D
    decreases depth
  {
    match target
    case Runtime(s) => sem.runtimeValue(s)
    case Def(k) =>
      if k !in p.defs then sem.cut
      else sem.value(Symbol(k), FreeGenerics(p.defs[k]), FreeParams(p.defs[k]), Before(sem, p, depth, p.defs[k].scope, p.defs[k].body))
  }

  /** A method call: of an interface's method, what the receiver's value has for it, or else the default body. */
  ghost function DispatchBefore<D>(sem: Semantics<D>, p: Program, depth: nat, k: MethodKey, recvTy: Type, typeArgs: seq<Type>,
      argNames: seq<string>, d: D, ds: seq<D>): D
    decreases depth
  {
    if Overriding(sem, p, k, d) then
      var impl := sem.dispatch(d, k).value;
      if StdMethod(impl.key) in p.defs then
        var c := p.defs[StdMethod(impl.key)];
        RunMethod(sem, c, impl.ownerArgs, typeArgs, argNames, impl.self, ds, Before(sem, p, depth, c.scope, c.body))
      else sem.method_(impl.self, recvTy, impl.key.name, typeArgs, argNames, ds)
    else if StdMethod(k) in p.defs then
      var c := p.defs[StdMethod(k)];
      RunMethod(sem, c, OwnerArgs(recvTy), typeArgs, argNames, d, ds, Before(sem, p, depth, c.scope, c.body))
    else sem.cut
  }

  /** The receiver's value has its own implementation of the method. */
  ghost predicate Overriding<D>(sem: Semantics<D>, p: Program, k: MethodKey, d: D) {
    k in p.impls && sem.dispatch(d, k).Some? && sem.dispatch(d, k).value.key in p.impls[k]
  }

  /** Some concrete type may implement the method itself. */
  predicate Overridable(p: Program, k: MethodKey) {
    k in p.impls && p.impls[k] != {}
  }

  // ---- The emitted module ----

  /** An emitted definition. */
  datatype Emitted = Emitted(generics: seq<string>, params: seq<string>, body: Node)

  /** The emitted module: functions and globals by symbol, and the runtime symbols it may use. */
  datatype Output = Output(fns: map<string, Emitted>, globals: map<string, Emitted>, runtime: set<string>)

  ghost function Symbols(o: Output): set<string> {
    o.fns.Keys + o.globals.Keys + o.runtime
  }

  /** What a node of the emitted module means: symbols are looked up in the module itself. */
  ghost function After<D>(sem: Semantics<D>, o: Output, depth: nat, n: Node): D
    decreases depth, n
  {
    match n
    case Ident(k, name, ty) =>
      if k == Global && name in o.globals then
        if depth == 0 then sem.cut else sem.global(After(sem, o, depth - 1, o.globals[name].body))
      else if !IsLocal(k) && name in o.fns then
        if depth == 0 then sem.cut
        else
          var e := o.fns[name];
          sem.value(name, e.generics, e.params, After(sem, o, depth - 1, e.body))
      else if !IsLocal(k) && name in o.runtime then
        if depth == 0 then sem.cut else sem.runtimeValue(name)
      else sem.ident(k, name, ty)
    case Field(x, name, _) => sem.field(After(sem, o, depth, x), name)
    case Call(callee, typeArgs, argNames, args, _) =>
      var ds := AfterAll(sem, o, depth, args);
      if callee.Ident? && !IsLocal(callee.kind) && callee.name in o.fns then
        if depth == 0 then sem.cut
        else
          var e := o.fns[callee.name];
          RunFree(sem, e.generics, e.params, typeArgs, argNames, ds, After(sem, o, depth - 1, e.body))
      else if callee.Ident? && !IsLocal(callee.kind) && callee.name in o.runtime then
        sem.runtime(callee.name, typeArgs, argNames, ds)
      else sem.call(After(sem, o, depth, callee), typeArgs, argNames, ds)
    case MethodCall(recv, name, typeArgs, argNames, args, _) =>
      sem.method_(After(sem, o, depth, recv), recv.ty, name, typeArgs, argNames, AfterAll(sem, o, depth, args))
    case Shape(tag, payload, kids, ty) => sem.shape(tag, payload, ty, AfterAll(sem, o, depth, kids))
  }

  ghost function AfterAll<D>(sem: Semantics<D>, o: Output, depth: nat, ns: seq<Node>): seq<D>
    decreases depth, ns
  {
    if ns == [] then [] else [After(sem, o, depth, ns[0])] + AfterAll(sem, o, depth, ns[1..])
  }

  // ---- A method as a free function ----

  lemma {:induction false} MapAssociates<K, V>(m: map<K, V>, a: map<K, V>, b: map<K, V>)
    ensures (m + a) + b == m + (a + b)
  {
    assert ((m + a) + b).Keys == (m + (a + b)).Keys;
  }

  lemma {:induction false} BindTypesConcat(a: seq<string>, b: seq<string>, x: seq<Type>, y: seq<Type>)
    requires |x| == |a| || (|x| > |a| && b == [])
    ensures BindTypes(a + b, x + y) == BindTypes(a, x) + BindTypes(b, y)
  {
    if a == [] {
      assert a + b == b && BindTypes(a, x) == map[];
      if x == [] {
        assert x + y == y;
      }
    } else {
      BindTypesConcat(a[1..], b, x[1..], y);
      assert (a + b)[1..] == a[1..] + b && (x + y)[1..] == x[1..] + y;
      assert BindTypes(a + b, x + y) == map[a[0] := x[0]] + BindTypes(a[1..] + b, x[1..] + y);
      MapAssociates(map[a[0] := x[0]], BindTypes(a[1..], x[1..]), BindTypes(b, y));
    }
  }

  /** `self` put first binds the receiver and moves no other argument. */
  lemma {:induction false} BindSelf<D>(params: seq<string>, argNames: seq<string>, d: D, ds: seq<D>)
    ensures BindArgs(["self"] + params, [""] + argNames, [d] + ds) == map["self" := d] + BindArgs(params, argNames, ds)
  {
    assert Tail(["self"] + params) == params && Tail([""] + argNames) == argNames && ([d] + ds)[1..] == ds;
  }

  /** The receiver's arguments fill the owner's generics exactly, or spill where nothing follows. */
  predicate OwnerArgsFit(c: Code, ownerArgs: seq<Type>) {
    |ownerArgs| == |OwnerGenerics(c)| || (|ownerArgs| > |OwnerGenerics(c)| && c.generics == [])
  }

  /** A method run as declared is its free form run on the receiver and the other arguments. */
  lemma {:induction false} MethodAsFree<D>(sem: Semantics<D>, c: Code, ownerArgs: seq<Type>, typeArgs: seq<Type>, argNames: seq<string>, d: D, ds: seq<D>, body: D)
    requires c.owner.Some? && OwnerArgsFit(c, ownerArgs)
    ensures RunMethod(sem, c, ownerArgs, typeArgs, argNames, d, ds, body) ==
      RunFree(sem, FreeGenerics(c), FreeParams(c), ownerArgs + typeArgs, [""] + argNames, [d] + ds, body)
  {
    BindTypesConcat(OwnerGenerics(c), c.generics, ownerArgs, typeArgs);
    BindSelf(c.params, argNames, d, ds);
  }
}
