/**
 Where the rewriting changes what programs mean: names bound locally, functions named as values,
 methods that values override, and receivers whose types lack the owner's arguments.
 */
module LinkLimits {

  import opened Ir
  import opened Link
  import opened LinkMeaning
  import opened Meaning
  import opened Passes
  import opened Wrappers

  ghost predicate MeansSame<D>(sem: Semantics<D>, p: Program, o: Output, depth: nat, scope: Scope, slot: Slot, n: Node) {
    After(sem, o, depth, Rewrite(ScopeTables(p, scope), slot, n)) == Before(sem, p, depth, scope, n)
  }

  /** A semantics in which nothing holds. */
  const NOTHING: Semantics<bool> := Semantics(
    (k, x, ty) => false, (d, x) => false, (d, ts, xs, ds) => false, (d, ty, x, ts, xs, ds) => false,
    (tag, x, ty, ds) => false, (s, ts, xs, ds) => false, s => false, (ts, env, d) => false,
    (s, gs, ps, d) => false, (d, k) => None, d => false, false)

  // ---- Callees bound locally ----

  /** Tells a call of an unresolved callee from everything a resolved call can come to. */
  function OpenCallsOnly(): Semantics<bool> {
    NOTHING.(call := (d: bool, ts: seq<Type>, xs: seq<string>, ds: seq<bool>) => true)
  }

  /**
   The rewriters go by spelling.  A call whose callee is spelled as the tables know it keeps its meaning
   under every semantics exactly when neither the callee nor its qualifier is bound locally.
   */
  lemma {:induction false} SpellingMeansIff(p: Program, o: Output, items: set<Key>, depth: nat, scope: Scope, slot: Slot, n: Node)
    requires Linked(p, o, items) && n.Call? && slot != Skipped
    requires var t := ScopeTables(p, scope);
      && SpelledTarget(t, n.callee).Some? && TargetRefs(SpelledTarget(t, n.callee)) <= items
      && FitsAll(p, t, Symbols(o), Spliced, n.args) && RefsAll(t, n.args) <= items
    ensures (forall sem: Semantics<bool> :: MeansSame(sem, p, o, depth, scope, slot, n)) <==> !LocallyBound(n.callee)
  {
    if LocallyBound(n.callee) {
      LocalCallRedirected(p, o, items, depth, scope, slot, n);
      assert !MeansSame(OpenCallsOnly(), p, o, depth, scope, slot, n);
    } else {
      forall sem: Semantics<bool>
        ensures MeansSame(sem, p, o, depth, scope, slot, n)
      {
        LinkKeepsMeaning(sem, p, o, items, depth, scope, slot, n);
      }
    }
  }

  lemma {:induction false} LocalCallRedirected(p: Program, o: Output, items: set<Key>, depth: nat, scope: Scope, slot: Slot, n: Node)
    requires Linked(p, o, items) && n.Call? && slot != Skipped && LocallyBound(n.callee)
    requires var t := ScopeTables(p, scope);
      SpelledTarget(t, n.callee).Some? && TargetRefs(SpelledTarget(t, n.callee)) <= items
    ensures !MeansSame(OpenCallsOnly(), p, o, depth, scope, slot, n)
  {
    hide Symbol, EmittedOf, ItemFits, BindTypes, BindArgs;
    var t, sem := ScopeTables(p, scope), OpenCallsOnly();
    assert TablesFit(t, o);
    assert Before(sem, p, depth, scope, n);
    var n' := Rewrite(t, slot, n);
    assert n'.callee == Ident(Fn, TargetSymbol(SpelledTarget(t, n.callee).value), n.callee.ty);
    assert !After(sem, o, depth, n');
  }

  // ---- Functions named as values ----

  /** Tells the value of one function from everything else. */
  function ValueOf(sym: string): Semantics<bool> {
    NOTHING.(value := (s: string, gs: seq<string>, ps: seq<string>, d: bool) => s == sym, runtimeValue := (s: string) => s == sym)
  }

  /**
   The passes look at callees only.  A function named as a value keeps its meaning under every semantics
   exactly when it is one of the scope's own, named plainly.
   */
  lemma {:induction false} ValueMeansIff(p: Program, o: Output, items: set<Key>, depth: nat, scope: Scope, slot: Slot, n: Node)
    requires Linked(p, o, items) && depth > 0
    requires var t := ScopeTables(p, scope);
      && SymbolsFresh(t) && !n.Call? && CalleeTarget(t, n).Some? && TargetRefs(CalleeTarget(t, n)) <= items
      && !(n.Ident? && n.kind == Global && n.name in t.globals)
    ensures (forall sem: Semantics<bool> :: MeansSame(sem, p, o, depth, scope, slot, n)) <==>
      n.Ident? && n.name !in ScopeTables(p, scope).bare
  {
    if n.Ident? && n.name !in ScopeTables(p, scope).bare {
      forall sem: Semantics<bool>
        ensures MeansSame(sem, p, o, depth, scope, slot, n)
      {
        LinkKeepsMeaning(sem, p, o, items, depth, scope, slot, n);
      }
    } else {
      ValueLost(p, o, items, depth, scope, slot, n);
      assert !MeansSame(ValueOf(TargetSymbol(CalleeTarget(ScopeTables(p, scope), n).value)), p, o, depth, scope, slot, n);
    }
  }

  lemma {:induction false} ValueLost(p: Program, o: Output, items: set<Key>, depth: nat, scope: Scope, slot: Slot, n: Node)
    requires depth > 0 && !n.Call? && items <= p.defs.Keys
    requires var t := ScopeTables(p, scope);
      && SymbolsFresh(t) && CalleeTarget(t, n).Some? && TargetRefs(CalleeTarget(t, n)) <= items
      && !(n.Ident? && (n.name !in t.bare || (n.kind == Global && n.name in t.globals)))
    ensures !MeansSame(ValueOf(TargetSymbol(CalleeTarget(ScopeTables(p, scope), n).value)), p, o, depth, scope, slot, n)
  {
    hide Symbol;
    var t := ScopeTables(p, scope);
    var target := CalleeTarget(t, n).value;
    var sem := ValueOf(TargetSymbol(target));
    assert Before(sem, p, depth, scope, n) == ValueBefore(sem, p, depth - 1, target) == true;
    if n.Ident? {
      assert Rewrite(t, slot, n) == n && n.name != TargetSymbol(target);
    } else {
      hide SymbolsFresh;
    }
    hide CalleeTarget, Before;
    assert !After(sem, o, depth, Rewrite(t, slot, n));
  }

  // ---- Methods that values override ----

  /** Every value overrides methods by `m`, on a `self` that shows. */
  function Overrides(m: MethodKey): Semantics<bool> {
    NOTHING.(
      method_ := (d: bool, ty: Type, x: string, ts: seq<Type>, xs: seq<string>, ds: seq<bool>) => d,
      run := (ts: map<string, Type>, env: map<string, bool>, d: bool) => "self" in env && env["self"],
      dispatch := (d: bool, k: MethodKey) => Some(Impl(m, !d, [])))
  }

  /** `self` is a word of the language, so no parameter and no keyword argument is called so. */
  ghost predicate SelfFree(p: Program, n: Node)
    requires n.MethodCall?
  {
    "self" !in n.argNames && forall k :: k in p.defs ==> "self" !in p.defs[k].params
  }

  lemma {:induction false} BindArgsNames<D>(params: seq<string>, argNames: seq<string>, ds: seq<D>, x: string)
    requires x in BindArgs(params, argNames, ds)
    ensures x in params || x in argNames
    decreases |ds|
  {
    if x in BindArgs(Tail(params), Tail(argNames), ds[1..]) {
      BindArgsNames(Tail(params), Tail(argNames), ds[1..], x);
    }
  }

  /**
   The rewritten call runs the body declared on the static type.  A call that is rewritten keeps its
   meaning under every semantics exactly when no concrete type may implement the method itself.
   */
  lemma {:induction false} DispatchMeansIff(p: Program, o: Output, items: set<Key>, depth: nat, scope: Scope, n: Node, k: MethodKey)
    requires Linked(p, o, items) && depth > 0 && n.MethodCall? && SelfFree(p, n)
    requires var t := ScopeTables(p, scope);
      && MethodTarget(t, n.recv.ty, n.name) == Some(k) && StdMethod(k) in items && StdMethod(k) in p.defs
      && p.defs[StdMethod(k)].owner.Some? && OwnerArgsFit(p.defs[StdMethod(k)], OwnerArgs(n.recv.ty))
      && Fits(p, t, Symbols(o), Spliced, n.recv) && Refs(t, n.recv) <= items
      && FitsAll(p, t, Symbols(o), Spliced, n.args) && RefsAll(t, n.args) <= items
    ensures (forall sem: Semantics<bool> :: MeansSame(sem, p, o, depth, scope, Spliced, n)) <==> !Overridable(p, k)
  {
    if Overridable(p, k) {
      var m :| m in p.impls[k];
      LinkKeepsMeaning(Overrides(m), p, o, items, depth, scope, Spliced, n.recv);
      LinkedMethod(p, o, items, k);
      OverrideLost(p, o, depth, scope, n, k, m);
      assert !MeansSame(Overrides(m), p, o, depth, scope, Spliced, n);
    } else {
      forall sem: Semantics<bool>
        ensures MeansSame(sem, p, o, depth, scope, Spliced, n)
      {
        LinkKeepsMeaning(sem, p, o, items, depth, scope, Spliced, n);
      }
    }
  }

  lemma {:induction false} LinkedMethod(p: Program, o: Output, items: set<Key>, k: MethodKey)
    requires Linked(p, o, items) && StdMethod(k) in items
    ensures StdMethod(k) in p.defs && Symbol(StdMethod(k)) in o.fns && o.fns[Symbol(StdMethod(k))] == EmittedOf(p, StdMethod(k))
  {
  }

  /** The default body runs although the receiver's value has its own. */
  lemma {:induction false} OverrideLost(p: Program, o: Output, depth: nat, scope: Scope, n: Node, k: MethodKey, m: MethodKey)
    requires depth > 0 && n.MethodCall? && SelfFree(p, n) && k in p.impls && m in p.impls[k]
    requires StdMethod(k) in p.defs && p.defs[StdMethod(k)].owner.Some?
    requires Symbol(StdMethod(k)) in o.fns && o.fns[Symbol(StdMethod(k))] == EmittedOf(p, StdMethod(k))
    requires var t := ScopeTables(p, scope);
      && MethodTarget(t, n.recv.ty, n.name) == Some(k)
      && After(Overrides(m), o, depth, Rewrite(t, Spliced, n.recv)) == Before(Overrides(m), p, depth, scope, n.recv)
    ensures !MeansSame(Overrides(m), p, o, depth, scope, Spliced, n)
  {
    var t, sem := ScopeTables(p, scope), Overrides(m);
    var d, ds := Before(sem, p, depth, scope, n.recv), BeforeAll(sem, p, depth, scope, n.args);
    var recv', args' := Rewrite(t, Spliced, n.recv), RewriteAll(t, Spliced, n.args);
    OverrideRuns(p, depth, scope, n, k, m);
    FreeCallMeans(sem, o, depth, k, recv', n.typeArgs, n.argNames, args', n.recv.ty, n.ty);
    SelfBound(p.defs[StdMethod(k)].params, n.argNames, d, AfterAll(sem, o, depth, args'));
    BindSelf(p.defs[StdMethod(k)].params, n.argNames, d, AfterAll(sem, o, depth, args'));
    assert Rewrite(t, Spliced, n) == FreeCall(k, recv', n.typeArgs, n.argNames, args', n.recv.ty, n.ty);
  }

  lemma {:induction false} SelfBound<D>(params: seq<string>, argNames: seq<string>, d: D, ds: seq<D>)
    requires "self" !in params && "self" !in argNames
    ensures var env := map["self" := d] + BindArgs(params, argNames, ds); "self" in env && env["self"] == d
  {
    if "self" in BindArgs(params, argNames, ds) {
      BindArgsNames(params, argNames, ds, "self");
    }
  }

  lemma {:induction false} OverrideRuns(p: Program, depth: nat, scope: Scope, n: Node, k: MethodKey, m: MethodKey)
    requires depth > 0 && n.MethodCall? && SelfFree(p, n) && k in p.impls && m in p.impls[k]
    requires MethodTarget(ScopeTables(p, scope), n.recv.ty, n.name) == Some(k)
    ensures Before(Overrides(m), p, depth, scope, n) == !Before(Overrides(m), p, depth, scope, n.recv)
  {
    var sem := Overrides(m);
    var d, ds := Before(sem, p, depth, scope, n.recv), BeforeAll(sem, p, depth, scope, n.args);
    assert Overriding(sem, p, k, d);
    if StdMethod(m) in p.defs {
      SelfBound(p.defs[StdMethod(m)].params, n.argNames, !d, ds);
    }
  }

  // ---- Receivers without their owner's arguments ----

  lemma {:induction false} BindTypesKeys(names: seq<string>, types: seq<Type>, x: string)
    ensures x in BindTypes(names, types) <==> exists i :: 0 <= i < |names| && i < |types| && names[i] == x
  {
    if names != [] && types != [] {
      BindTypesKeys(names[1..], types[1..], x);
      if x in BindTypes(names[1..], types[1..]) {
        var i :| 0 <= i < |names| - 1 && i < |types| - 1 && names[1..][i] == x;
        assert names[i + 1] == x;
      }
      if i :| 0 < i < |names| && i < |types| && names[i] == x {
        assert names[1..][i - 1] == x;
      }
    }
  }

  /** The free form binds the generics as the declaration does, whatever type arguments the call has. */
  ghost predicate BindsSame(c: Code, ownerArgs: seq<Type>) {
    forall typeArgs :: BindTypes(FreeGenerics(c), ownerArgs + typeArgs) == BindTypes(OwnerGenerics(c), ownerArgs) + BindTypes(c.generics, typeArgs)
  }

  /** With distinct generics, that holds exactly when the receiver's arguments fill the owner's generics, or spill where nothing follows. */
  lemma {:induction false} OwnerArgsFitIff(c: Code, ownerArgs: seq<Type>)
    requires c.owner.Some? && var gs := FreeGenerics(c); forall i, j :: 0 <= i < j < |gs| ==> gs[i] != gs[j]
    ensures BindsSame(c, ownerArgs) <==> OwnerArgsFit(c, ownerArgs)
  {
    var own, gs := OwnerGenerics(c), FreeGenerics(c);
    if OwnerArgsFit(c, ownerArgs) {
      forall typeArgs
        ensures BindTypes(gs, ownerArgs + typeArgs) == BindTypes(own, ownerArgs) + BindTypes(c.generics, typeArgs)
      {
        BindTypesConcat(own, c.generics, ownerArgs, typeArgs);
      }
    } else {
      var typeArgs := if |ownerArgs| < |own| then [OtherType("")] else [];
      var x := gs[if |ownerArgs| < |own| then |ownerArgs| else |own|];
      BindTypesKeys(gs, ownerArgs + typeArgs, x);
      BindTypesKeys(own, ownerArgs, x);
      BindTypesKeys(c.generics, typeArgs, x);
      assert forall i :: 0 <= i < |c.generics| ==> gs[|own| + i] == c.generics[i];
      assert forall i :: 0 <= i < |own| ==> gs[i] == own[i];
      assert x in BindTypes(gs, ownerArgs + typeArgs);
      assert x !in BindTypes(own, ownerArgs) + BindTypes(c.generics, typeArgs);
    }
  }

  /** On a receiver of type `Option` without its argument, the method's own type argument is taken for the owner's. */
  lemma {:induction false} OwnerArgumentMissing()
    ensures
      var c := Code(Std("option"), Some(["T"]), ["U"], ["f"], Shape(Leaf, "", [], OtherType("U")));
      var int_ := OtherType("Int");
      && OwnerArgs(Named("", "Option", [], true)) == []
      && BindTypes(FreeGenerics(c), [] + [int_]) == map["T" := int_]
      && BindTypes(OwnerGenerics(c), []) + BindTypes(c.generics, [int_]) == map["U" := int_]
  {
    assert ["T"] + ["U"] == ["T", "U"];
  }
}
