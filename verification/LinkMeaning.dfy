/**
 When rewriting keeps the meaning of programs: what a body refers to, where the passes reach it, and the
 linked output in which it means what it meant before.
 */
module LinkMeaning {

  import opened Ir
  import opened Link
  import opened Meaning
  import opened Wrappers

  // ---- When rewriting is faithful ----

  /** The items a tree refers to, as its tables resolve them. */
  ghost function Refs(t: Tables, n: Node): set<Key>
    decreases n
  {
    match n
    case Ident(k, name, _) => if k == Global && name in t.globals then {t.globals[name]} else TargetRefs(CalleeTarget(t, n))
    case Field(x, _, _) => if CalleeTarget(t, n).Some? then TargetRefs(CalleeTarget(t, n)) else Refs(t, x)
    case Call(callee, _, _, args, _) =>
      (if CalleeTarget(t, callee).Some? then TargetRefs(CalleeTarget(t, callee)) else Refs(t, callee)) + RefsAll(t, args)
    case MethodCall(recv, name, _, _, args, _) =>
      (match MethodTarget(t, recv.ty, name) case Some(k) => {StdMethod(k)} case None => {})
      + Refs(t, recv) + RefsAll(t, args)
    case Shape(_, _, kids, _) => RefsAll(t, kids)
  }

  ghost function RefsAll(t: Tables, ns: seq<Node>): set<Key>
    decreases ns
  {
    if ns == [] then {} else Refs(t, ns[0]) + RefsAll(t, ns[1..])
  }

  function TargetRefs(target: Option<Target>): set<Key> {
    if target.Some? && target.value.Def? then {target.value.key} else {}
  }

  /** A callee the passes handle rightly in this slot. */
  ghost predicate CalleeFits(t: Tables, emitted: set<string>, slot: Slot, callee: Node) {
    match CalleeTarget(t, callee)
    case Some(target) => slot != Skipped || SpelledTarget(t, callee) == None
    case None =>
      // no local is spelled like a table entry, and no outside name like an emitted symbol
      && (slot != Skipped ==> SpelledTarget(t, callee) == None)
      && (callee.Ident? && !IsLocal(callee.kind) ==> callee.name !in emitted)
  }

  /** A method call the passes handle rightly: no value overrides the method, and its owner's arguments fit. */
  ghost predicate MethodFits(p: Program, k: MethodKey, recvTy: Type) {
    && !Overridable(p, k)
    && (StdMethod(k) in p.defs ==> p.defs[StdMethod(k)].owner.Some? && OwnerArgsFit(p.defs[StdMethod(k)], OwnerArgs(recvTy)))
  }

  /**
   Everything in the tree that resolves sits where the passes reach it: calls and global reads in
   walked trees, methods in spliced slots; functions are named as values only where they keep their
   name; and spelling and static types decide as scope and values do.
   */
  ghost predicate Fits(p: Program, t: Tables, emitted: set<string>, slot: Slot, n: Node)
    decreases n
  {
    match n
    case Ident(k, name, _) =>
      if k == Global && name in t.globals then slot != Skipped
      else IsLocal(k) || (name !in t.bare && (name in t.own || name !in emitted))
    case Field(x, _, _) => CalleeTarget(t, n) == None && Fits(p, t, emitted, ExprSlot(slot), x)
    case Call(callee, _, _, args, _) =>
      && CalleeFits(t, emitted, slot, callee)
      && (CalleeTarget(t, callee) == None ==> Fits(p, t, emitted, ExprSlot(slot), callee))
      && FitsAll(p, t, emitted, ExprSlot(slot), args)
    case MethodCall(recv, name, _, _, args, _) =>
      && (MethodTarget(t, recv.ty, name).Some? ==> slot == Spliced && MethodFits(p, MethodTarget(t, recv.ty, name).value, recv.ty))
      && Fits(p, t, emitted, ExprSlot(slot), recv) && FitsAll(p, t, emitted, ExprSlot(slot), args)
    case Shape(tag, _, kids, _) => FitsAll(p, t, emitted, KidSlot(slot, tag), kids)
  }

  ghost predicate FitsAll(p: Program, t: Tables, emitted: set<string>, slot: Slot, ns: seq<Node>)
    decreases ns
  {
    ns == [] || (Fits(p, t, emitted, slot, ns[0]) && FitsAll(p, t, emitted, slot, ns[1..]))
  }

  // ---- A linked output ----

  /** Initialisers of injected globals only have their global reads rewritten. */
  function EmitTables(p: Program, k: Key): Tables
    requires k in p.defs
  {
    var t := ScopeTables(p, p.defs[k].scope);
    if k.StdLet? then GlobalsOnly(t) else t
  }

  function EmittedOf(p: Program, k: Key): Emitted
    requires k in p.defs
  {
    Emitted(FreeGenerics(p.defs[k]), FreeParams(p.defs[k]), Rewrite(EmitTables(p, k), Walked, p.defs[k].body))
  }

  /** Tables that resolve to the right kinds of items, and runtime symbols the output may use. */
  ghost predicate TablesFit(t: Tables, o: Output) {
    && (forall x :: x in t.globals ==> t.globals[x].StdLet?)
    && (forall x :: x in t.own ==> t.own[x] == UserFn(x) && x !in t.globals)
    && (forall x :: x in t.bare ==> TargetFits(t.bare[x], o))
    && (forall x :: x in t.qual ==> TargetFits(t.qual[x], o))
  }

  ghost predicate TargetFits(target: Target, o: Output) {
    match target
    case Def(k) => !k.StdLet?
    case Runtime(s) => s in o.runtime
  }

  ghost predicate OutputFits(o: Output) {
    o.fns.Keys !! o.globals.Keys && o.fns.Keys !! o.runtime && o.globals.Keys !! o.runtime
  }

  /** An initialiser may read globals but not call anything that resolves. */
  ghost predicate ItemFits(p: Program, o: Output, items: set<Key>, k: Key)
    requires k in p.defs
  {
    var t, body := ScopeTables(p, p.defs[k].scope), p.defs[k].body;
    && Fits(p, t, Symbols(o), Walked, body) && Refs(t, body) <= items
    && (k.StdLet? ==> CallsNothing(t, body))
  }

  /** The output holds each item under its symbol, rewritten, and the items are closed under reference. */
  ghost predicate Linked(p: Program, o: Output, items: set<Key>) {
    && OutputFits(o)
    && (forall s :: s in p.tables ==> TablesFit(p.tables[s], o))
    && (forall k :: k in items ==>
          && k in p.defs && ItemFits(p, o, items, k)
          && (if k.StdLet? then Symbol(k) in o.globals && o.globals[Symbol(k)] == EmittedOf(p, k)
              else Symbol(k) in o.fns && o.fns[Symbol(k)] == EmittedOf(p, k)))
  }

  ghost predicate CallsNothing(t: Tables, n: Node)
    decreases n
  {
    match n
    case Ident(_, _, _) => true
    case Field(x, _, _) => CallsNothing(t, x)
    case Call(callee, _, _, args, _) => SpelledTarget(t, callee) == None && CallsNothing(t, callee) && AllCallNothing(t, args)
    case MethodCall(recv, name, _, _, args, _) =>
      MethodTarget(t, recv.ty, name) == None && CallsNothing(t, recv) && AllCallNothing(t, args)
    case Shape(_, _, kids, _) => AllCallNothing(t, kids)
  }

  ghost predicate AllCallNothing(t: Tables, ns: seq<Node>)
    decreases ns
  {
    ns == [] || (CallsNothing(t, ns[0]) && AllCallNothing(t, ns[1..]))
  }

  lemma {:induction false} GlobalsSuffice(t: Tables, slot: Slot, n: Node)
    requires CallsNothing(t, n)
    ensures Rewrite(GlobalsOnly(t), slot, n) == Rewrite(t, slot, n)
    decreases n
  {
    match n
    case Ident(_, _, _) =>
    case Field(x, _, _) => GlobalsSuffice(t, Spliced, x);
    case Call(callee, _, _, args, _) =>
      GlobalsSuffice(t, Spliced, callee);
      GlobalsSufficeAll(t, Spliced, args);
    case MethodCall(recv, _, _, _, args, _) =>
      GlobalsSuffice(t, Spliced, recv);
      GlobalsSufficeAll(t, Spliced, args);
    case Shape(tag, _, kids, _) => GlobalsSufficeAll(t, KidSlot(slot, tag), kids);
  }

  lemma {:induction false} GlobalsSufficeAll(t: Tables, slot: Slot, ns: seq<Node>)
    requires AllCallNothing(t, ns)
    ensures RewriteAll(GlobalsOnly(t), slot, ns) == RewriteAll(t, slot, ns)
    decreases ns
  {
    if ns != [] {
      GlobalsSuffice(t, slot, ns[0]);
      GlobalsSufficeAll(t, slot, ns[1..]);
    }
  }

  // ---- Linking preserves meaning ----

  /**
   Under every semantics and to every depth, a tree that fits means after rewriting, in the linked
   output, what it meant before in its scope.
   */
  lemma {:induction false} LinkKeepsMeaning<D>(sem: Semantics<D>, p: Program, o: Output, items: set<Key>,
      depth: nat, scope: Scope, slot: Slot, n: Node)
    requires Linked(p, o, items)
    requires var t := ScopeTables(p, scope); Fits(p, t, Symbols(o), slot, n) && Refs(t, n) <= items
    ensures After(sem, o, depth, Rewrite(ScopeTables(p, scope), slot, n)) == Before(sem, p, depth, scope, n)
    decreases depth, n
  {
    hide CalleeTarget, SpelledTarget, MethodTarget, MethodFits, FreeCall, Splices, CalleeFits, EmittedOf, ItemFits, ValueBefore, Linked, ItemAgrees, FreeGenerics, FreeParams,
         TablesFit;
    var t := ScopeTables(p, scope);
    match n
    case Ident(k, name, _) =>
      if depth > 0 {
        if k == Global && name in t.globals {
          ItemKeepsMeaning(sem, p, o, items, depth - 1, t.globals[name]);
        } else if name in t.own && t.own[name] in items {
          ItemKeepsMeaning(sem, p, o, items, depth - 1, t.own[name]);
        }
      }
      if k == Global && name in t.globals {
        ReadKeepsMeaning(sem, p, o, items, depth, scope, slot, n);
      } else {
        LinkedTables(p, o, items, scope);
        LinkedUserFns(p, o, items);
        NameKeepsMeaning(sem, p, o, items, depth, scope, slot, n);
      }
    case Field(x, _, _) =>
      LinkKeepsMeaning(sem, p, o, items, depth, scope, ExprSlot(slot), x);
    case Call(callee, _, _, args, _) =>
      LinkKeepsMeaningAll(sem, p, o, items, depth, scope, ExprSlot(slot), args);
      CallKeepsMeaning(sem, p, o, items, depth, scope, slot, n);
    case MethodCall(recv, _, _, _, args, _) =>
      LinkKeepsMeaning(sem, p, o, items, depth, scope, ExprSlot(slot), recv);
      LinkKeepsMeaningAll(sem, p, o, items, depth, scope, ExprSlot(slot), args);
      MethodKeepsMeaning(sem, p, o, items, depth, scope, slot, n);
    case Shape(tag, _, kids, _) =>
      LinkKeepsMeaningAll(sem, p, o, items, depth, scope, KidSlot(slot, tag), kids);
      if slot == Skipped {
        RewriteSkipped(t, kids);
      }
  }

  lemma {:induction false} ReadKeepsMeaning<D>(sem: Semantics<D>, p: Program, o: Output, items: set<Key>, depth: nat, scope: Scope, slot: Slot, n: Node)
    requires Linked(p, o, items) && n.Ident?
    requires var t := ScopeTables(p, scope);
      && n.kind == Global && n.name in t.globals && slot != Skipped && t.globals[n.name] in items
      && (depth > 0 ==> ItemAgrees(sem, p, o, depth - 1, t.globals[n.name]))
    ensures After(sem, o, depth, Rewrite(ScopeTables(p, scope), slot, n)) == Before(sem, p, depth, scope, n)
  {
    hide EmittedOf, ItemFits;
    assert TablesFit(ScopeTables(p, scope), o);
  }

  /** A name in value position that is not rewritten: a local, one of the scope's own functions, or an outside name. */
  lemma {:induction false} NameKeepsMeaning<D>(sem: Semantics<D>, p: Program, o: Output, items: set<Key>, depth: nat, scope: Scope, slot: Slot, n: Node)
    requires n.Ident? && OutputFits(o) && TablesFit(ScopeTables(p, scope), o) && forall x :: UserFn(x) in items ==> x in o.fns
    requires var t := ScopeTables(p, scope);
      && !(n.kind == Global && n.name in t.globals) && Fits(p, t, Symbols(o), slot, n) && Refs(t, n) <= items
      && (n.name in t.own && depth > 0 && t.own[n.name] in items ==> ItemAgrees(sem, p, o, depth - 1, t.own[n.name]))
    ensures After(sem, o, depth, Rewrite(ScopeTables(p, scope), slot, n)) == Before(sem, p, depth, scope, n)
  {
    hide FreeGenerics, FreeParams;
    var t := ScopeTables(p, scope);
    assert Rewrite(t, slot, n) == n;
    if !IsLocal(n.kind) && n.name in t.own {
      assert CalleeTarget(t, n) == Some(Def(UserFn(n.name)));
      assert UserFn(n.name) in items && Symbol(UserFn(n.name)) == n.name;
    } else {
      assert CalleeTarget(t, n) == None;
      hide TablesFit, CalleeTarget;
      assert Before(sem, p, depth, scope, n) == sem.ident(n.kind, n.name, n.ty);
    }
  }

  lemma {:induction false} LinkedUserFns(p: Program, o: Output, items: set<Key>)
    requires Linked(p, o, items)
    ensures OutputFits(o) && forall x :: UserFn(x) in items ==> x in o.fns
  {
    hide ItemFits, EmittedOf, TablesFit;
    forall x | UserFn(x) in items
      ensures x in o.fns
    {
      assert Symbol(UserFn(x)) == x;
    }
  }

  lemma {:induction false} LinkKeepsMeaningAll<D>(sem: Semantics<D>, p: Program, o: Output, items: set<Key>,
      depth: nat, scope: Scope, slot: Slot, ns: seq<Node>)
    requires Linked(p, o, items)
    requires var t := ScopeTables(p, scope); FitsAll(p, t, Symbols(o), slot, ns) && RefsAll(t, ns) <= items
    ensures AfterAll(sem, o, depth, RewriteAll(ScopeTables(p, scope), slot, ns)) == BeforeAll(sem, p, depth, scope, ns)
    decreases depth, ns
  {
    if ns != [] {
      LinkKeepsMeaning(sem, p, o, items, depth, scope, slot, ns[0]);
      LinkKeepsMeaningAll(sem, p, o, items, depth, scope, slot, ns[1..]);
      var r := RewriteAll(ScopeTables(p, scope), slot, ns);
      assert r[1..] == RewriteAll(ScopeTables(p, scope), slot, ns[1..]);
    }
  }

  /** The output holds the function, with the same parameters and a body that means the same. */
  ghost predicate FnAgrees<D>(sem: Semantics<D>, p: Program, o: Output, depth: nat, k: Key) {
    && k in p.defs && Symbol(k) in o.fns
    && o.fns[Symbol(k)].generics == FreeGenerics(p.defs[k]) && o.fns[Symbol(k)].params == FreeParams(p.defs[k])
    && After(sem, o, depth, o.fns[Symbol(k)].body) == Before(sem, p, depth, p.defs[k].scope, p.defs[k].body)
  }

  ghost predicate GlobalAgrees<D>(sem: Semantics<D>, p: Program, o: Output, depth: nat, k: Key) {
    && k in p.defs && Symbol(k) in o.globals
    && After(sem, o, depth, o.globals[Symbol(k)].body) == Before(sem, p, depth, p.defs[k].scope, p.defs[k].body)
  }

  ghost predicate ItemAgrees<D>(sem: Semantics<D>, p: Program, o: Output, depth: nat, k: Key) {
    if k.StdLet? then GlobalAgrees(sem, p, o, depth, k) else FnAgrees(sem, p, o, depth, k)
  }

  /** An item's emitted body means what its body meant. */
  lemma {:induction false} ItemKeepsMeaning<D>(sem: Semantics<D>, p: Program, o: Output, items: set<Key>, depth: nat, k: Key)
    requires Linked(p, o, items) && k in items
    ensures ItemAgrees(sem, p, o, depth, k)
    decreases depth
  {
    var c := p.defs[k];
    assert ItemFits(p, o, items, k);
    LinkKeepsMeaning(sem, p, o, items, depth, c.scope, Walked, c.body);
    if k.StdLet? {
      GlobalsSuffice(ScopeTables(p, c.scope), Walked, c.body);
    }
  }

  lemma {:induction false} CallKeepsMeaning<D>(sem: Semantics<D>, p: Program, o: Output, items: set<Key>,
      depth: nat, scope: Scope, slot: Slot, n: Node)
    requires Linked(p, o, items) && n.Call?
    requires var t := ScopeTables(p, scope); Fits(p, t, Symbols(o), slot, n) && Refs(t, n) <= items
    requires var t := ScopeTables(p, scope);
      AfterAll(sem, o, depth, RewriteAll(t, ExprSlot(slot), n.args)) == BeforeAll(sem, p, depth, scope, n.args)
    ensures After(sem, o, depth, Rewrite(ScopeTables(p, scope), slot, n)) == Before(sem, p, depth, scope, n)
    decreases depth, n, 0
  {
    hide After, AfterAll, Before, BeforeAll, Rewrite, RewriteAll, FnAgrees, Linked, CalleeTarget, Symbol, CalleeFits;
    var t := ScopeTables(p, scope);
    LinkedTables(p, o, items, scope);
    RewriteSkipped(t, n.args);
    match CalleeTarget(t, n.callee)
    case Some(Def(k)) =>
      LinkedTarget(p, o, items, scope, n.callee);
      if depth > 0 {
        ItemKeepsMeaning(sem, p, o, items, depth - 1, k);
      }
      DefCallMeans(sem, p, o, depth, scope, slot, n, k);
    case Some(Runtime(s)) =>
      LinkedTarget(p, o, items, scope, n.callee);
      RuntimeCallMeans(sem, p, o, depth, scope, slot, n, s);
    case None =>
      LinkKeepsMeaning(sem, p, o, items, depth, scope, ExprSlot(slot), n.callee);
      OpenCallMeans(sem, p, o, items, depth, scope, slot, n);
  }

  lemma {:induction false} LinkedTables(p: Program, o: Output, items: set<Key>, scope: Scope)
    requires Linked(p, o, items)
    ensures TablesFit(ScopeTables(p, scope), o)
  {
  }

  /** What a callee resolves to is in the output. */
  lemma {:induction false} LinkedTarget(p: Program, o: Output, items: set<Key>, scope: Scope, callee: Node)
    requires Linked(p, o, items) && CalleeTarget(ScopeTables(p, scope), callee).Some?
    ensures match CalleeTarget(ScopeTables(p, scope), callee).value
      case Def(k) => !k.StdLet? && (k in items ==> Symbol(k) in o.fns)
      case Runtime(s) => s in o.runtime && s !in o.fns
  {
    hide ItemFits, EmittedOf, Symbol;
    assert TablesFit(ScopeTables(p, scope), o);
  }

  /** The callee of a resolved call comes to name the target's symbol. */
  lemma {:induction false} ResolvedCallee(t: Tables, emitted: set<string>, slot: Slot, n: Node)
    requires n.Call? && CalleeTarget(t, n.callee).Some? && CalleeFits(t, emitted, slot, n.callee)
    requires forall x :: x in t.own ==> t.own[x] == UserFn(x) && x !in t.globals
    requires RewriteAll(t, Skipped, n.args) == n.args
    ensures var n', sym := Rewrite(t, slot, n), TargetSymbol(CalleeTarget(t, n.callee).value);
      && n'.Call? && n'.callee.Ident? && !IsLocal(n'.callee.kind) && n'.callee.name == sym
      && n'.typeArgs == n.typeArgs && n'.argNames == n.argNames && n'.args == RewriteAll(t, ExprSlot(slot), n.args)
  {
  }

  lemma {:induction false} DefCallMeans<D>(sem: Semantics<D>, p: Program, o: Output,
      depth: nat, scope: Scope, slot: Slot, n: Node, k: Key)
    requires n.Call?
    requires var t := ScopeTables(p, scope);
      && CalleeTarget(t, n.callee) == Some(Def(k)) && CalleeFits(t, Symbols(o), slot, n.callee)
      && (forall x :: x in t.own ==> t.own[x] == UserFn(x) && x !in t.globals)
      && AfterAll(sem, o, depth, RewriteAll(t, ExprSlot(slot), n.args)) == BeforeAll(sem, p, depth, scope, n.args)
      && RewriteAll(t, Skipped, n.args) == n.args
    requires Symbol(k) in o.fns && (depth > 0 ==> FnAgrees(sem, p, o, depth - 1, k))
    ensures After(sem, o, depth, Rewrite(ScopeTables(p, scope), slot, n)) == Before(sem, p, depth, scope, n)
  {
    ResolvedCallee(ScopeTables(p, scope), Symbols(o), slot, n);
  }

  lemma {:induction false} RuntimeCallMeans<D>(sem: Semantics<D>, p: Program, o: Output,
      depth: nat, scope: Scope, slot: Slot, n: Node, s: string)
    requires n.Call? && s in o.runtime && s !in o.fns
    requires var t := ScopeTables(p, scope);
      && CalleeTarget(t, n.callee) == Some(Runtime(s)) && CalleeFits(t, Symbols(o), slot, n.callee)
      && (forall x :: x in t.own ==> t.own[x] == UserFn(x) && x !in t.globals)
      && AfterAll(sem, o, depth, RewriteAll(t, ExprSlot(slot), n.args)) == BeforeAll(sem, p, depth, scope, n.args)
      && RewriteAll(t, Skipped, n.args) == n.args
    ensures After(sem, o, depth, Rewrite(ScopeTables(p, scope), slot, n)) == Before(sem, p, depth, scope, n)
  {
    ResolvedCallee(ScopeTables(p, scope), Symbols(o), slot, n);
  }

  lemma {:induction false} OpenCallMeans<D>(sem: Semantics<D>, p: Program, o: Output, items: set<Key>,
      depth: nat, scope: Scope, slot: Slot, n: Node)
    requires Linked(p, o, items) && n.Call?
    requires var t := ScopeTables(p, scope);
      && Fits(p, t, Symbols(o), slot, n) && Refs(t, n) <= items && CalleeTarget(t, n.callee) == None
      && AfterAll(sem, o, depth, RewriteAll(t, ExprSlot(slot), n.args)) == BeforeAll(sem, p, depth, scope, n.args)
      && RewriteAll(t, Skipped, n.args) == n.args
      && After(sem, o, depth, Rewrite(t, ExprSlot(slot), n.callee)) == Before(sem, p, depth, scope, n.callee)
    ensures After(sem, o, depth, Rewrite(ScopeTables(p, scope), slot, n)) == Before(sem, p, depth, scope, n)
  {
    var t := ScopeTables(p, scope);
    var n', callee' := Rewrite(t, slot, n), Rewrite(t, ExprSlot(slot), n.callee);
    assert n'.callee == callee';
    if callee'.Ident? && !IsLocal(callee'.kind) {
      OpenCalleeOutside(p, o, items, scope, slot, n.callee);
    }
  }

  /** An unresolved callee does not come to name an emitted function. */
  lemma {:induction false} OpenCalleeOutside(p: Program, o: Output, items: set<Key>, scope: Scope, slot: Slot, callee: Node)
    requires Linked(p, o, items) && callee.Ident? && !IsLocal(callee.kind)
    requires var t := ScopeTables(p, scope);
      && CalleeFits(t, Symbols(o), slot, callee) && CalleeTarget(t, callee) == None
      && Refs(t, callee) <= items
    ensures var callee' := Rewrite(ScopeTables(p, scope), ExprSlot(slot), callee);
      callee'.Ident? && callee'.name !in o.fns && callee'.name !in o.runtime
  {
    var t := ScopeTables(p, scope);
    assert TablesFit(t, o);
    if callee.kind == Global && callee.name in t.globals {
      var k := t.globals[callee.name];
      assert k in items && k.StdLet? && Symbol(k) in o.globals;
    }
  }

  lemma {:induction false} MethodKeepsMeaning<D>(sem: Semantics<D>, p: Program, o: Output, items: set<Key>,
      depth: nat, scope: Scope, slot: Slot, n: Node)
    requires Linked(p, o, items) && n.MethodCall?
    requires var t := ScopeTables(p, scope);
      && Fits(p, t, Symbols(o), slot, n) && Refs(t, n) <= items
      && AfterAll(sem, o, depth, RewriteAll(t, ExprSlot(slot), n.args)) == BeforeAll(sem, p, depth, scope, n.args)
      && After(sem, o, depth, Rewrite(t, ExprSlot(slot), n.recv)) == Before(sem, p, depth, scope, n.recv)
    ensures After(sem, o, depth, Rewrite(ScopeTables(p, scope), slot, n)) == Before(sem, p, depth, scope, n)
    decreases depth, n, 0
  {
    hide After, AfterAll, Before, BeforeAll, Rewrite, RewriteAll, EmittedOf, FnAgrees, Symbol, OutputFits, TablesFit, ItemFits;
    var t := ScopeTables(p, scope);
    match MethodTarget(t, n.recv.ty, n.name)
    case Some(k) =>
      assert StdMethod(k) in items;
      if depth > 0 {
        ItemKeepsMeaning(sem, p, o, items, depth - 1, StdMethod(k));
      }
      DefMethodMeans(sem, p, o, depth, scope, n, k);
    case None =>
      OpenMethodMeans(sem, p, o, depth, scope, slot, n);
  }

  lemma {:induction false} OpenMethodMeans<D>(sem: Semantics<D>, p: Program, o: Output, depth: nat, scope: Scope, slot: Slot, n: Node)
    requires n.MethodCall?
    requires var t := ScopeTables(p, scope);
      && MethodTarget(t, n.recv.ty, n.name) == None
      && AfterAll(sem, o, depth, RewriteAll(t, ExprSlot(slot), n.args)) == BeforeAll(sem, p, depth, scope, n.args)
      && After(sem, o, depth, Rewrite(t, ExprSlot(slot), n.recv)) == Before(sem, p, depth, scope, n.recv)
    ensures After(sem, o, depth, Rewrite(ScopeTables(p, scope), slot, n)) == Before(sem, p, depth, scope, n)
  {
    hide MethodTarget;
    var t := ScopeTables(p, scope);
    RewriteKeepsType(t, ExprSlot(slot), n.recv);
    RewriteSkipped(t, n.args);
  }

  /** The replaced call runs the free form on the receiver first: what the method, run as declared, is. */
  lemma {:induction false} DefMethodMeans<D>(sem: Semantics<D>, p: Program, o: Output,
      depth: nat, scope: Scope, n: Node, k: MethodKey)
    requires n.MethodCall?
    requires var t := ScopeTables(p, scope);
      && MethodTarget(t, n.recv.ty, n.name) == Some(k) && MethodFits(p, k, n.recv.ty)
      && AfterAll(sem, o, depth, RewriteAll(t, Spliced, n.args)) == BeforeAll(sem, p, depth, scope, n.args)
      && After(sem, o, depth, Rewrite(t, Spliced, n.recv)) == Before(sem, p, depth, scope, n.recv)
    requires Symbol(StdMethod(k)) in o.fns && (depth > 0 ==> FnAgrees(sem, p, o, depth - 1, StdMethod(k)))
    ensures After(sem, o, depth, Rewrite(ScopeTables(p, scope), Spliced, n)) == Before(sem, p, depth, scope, n)
  {
    var t := ScopeTables(p, scope);
    FreeCallMeans(sem, o, depth, k, Rewrite(t, Spliced, n.recv), n.typeArgs, n.argNames, RewriteAll(t, Spliced, n.args), n.recv.ty, n.ty);
    if depth > 0 {
      var c := p.defs[StdMethod(k)];
      MethodAsFree(sem, c, OwnerArgs(n.recv.ty), n.typeArgs, n.argNames, Before(sem, p, depth, scope, n.recv),
                   BeforeAll(sem, p, depth, scope, n.args), Before(sem, p, depth - 1, c.scope, c.body));
      hide RunMethod, RunFree;
    }
  }

  /** What the call that replaces a method call means. */
  lemma {:induction false} FreeCallMeans<D>(sem: Semantics<D>, o: Output, depth: nat, k: MethodKey, recv: Node, typeArgs: seq<Type>,
      argNames: seq<string>, args: seq<Node>, recvTy: Type, ty: Type)
    requires Symbol(StdMethod(k)) in o.fns
    ensures After(sem, o, depth, FreeCall(k, recv, typeArgs, argNames, args, recvTy, ty)) ==
      if depth == 0 then sem.cut
      else
        var e := o.fns[Symbol(StdMethod(k))];
        RunFree(sem, e.generics, e.params, OwnerArgs(recvTy) + typeArgs, [""] + argNames,
                [After(sem, o, depth, recv)] + AfterAll(sem, o, depth, args), After(sem, o, depth - 1, e.body))
  {
    hide RunFree, Symbol;
    AfterCons(sem, o, depth, recv, args);
  }

  lemma {:induction false} AfterCons<D>(sem: Semantics<D>, o: Output, depth: nat, n: Node, ns: seq<Node>)
    ensures AfterAll(sem, o, depth, [n] + ns) == [After(sem, o, depth, n)] + AfterAll(sem, o, depth, ns)
  {
  }
}
