/**
 The emitted module is closed: everything an injected body refers to is in it.  So it means, under
 every semantics, what the user's program meant.
 */
module Emission {

  import opened Ir
  import opened Mangle
  import opened Link
  import opened LinkMeaning
  import opened Meaning
  import opened Passes
  import opened Reachability
  import opened Inject
  import opened Injected
  import opened Wrappers

  // ---- What a body refers to is what the scans find ----

  ghost predicate CallRef(t: Tables, sites: set<Site>, k: Key) {
    exists s :: s in sites && !s.GlobalSite? && Lookup(t, s) == Some(Def(k))
  }

  ghost predicate LetRef(t: Tables, sites: set<Site>, k: Key) {
    exists x :: x in t.globals && GlobalSite(x) in sites && t.globals[x] == k
  }

  /** Found by the scan for calls, by the later scan for globals, or one of the scope's own functions. */
  ghost predicate Covered(t: Tables, sites: set<Site>, later: set<Site>, k: Key) {
    k in t.own.Values || CallRef(t, sites, k) || LetRef(t, later, k)
  }

  lemma {:induction false} CoveredMore(t: Tables, a: set<Site>, b: set<Site>, a': set<Site>, b': set<Site>, k: Key)
    requires Covered(t, a, b, k) && a <= a' && b <= b'
    ensures Covered(t, a', b', k)
  {
  }

  function AfterCalls(t: Tables, slot: Slot, n: Node): Node {
    Rewrite(PhaseTables(Calls, t), slot, n)
  }

  function AllAfterCalls(t: Tables, slot: Slot, ns: seq<Node>): seq<Node> {
    RewriteAll(PhaseTables(Calls, t), slot, ns)
  }

  lemma {:induction false} RefsCovered(p: Program, t: Tables, emitted: set<string>, slot: Slot, n: Node, k: Key)
    requires SymbolsFresh(t) && Fits(p, t, emitted, slot, n) && k in Refs(t, n)
    ensures Covered(t, Sites(slot, n), Sites(slot, AfterCalls(t, slot, n)), k)
    decreases n
  {
    match n
    case Ident(kind, name, _) =>
      if kind == Global && name in t.globals {
        assert GlobalSite(name) in Sites(slot, AfterCalls(t, slot, n));
      }
    case Field(x, _, _) =>
      RefsCovered(p, t, emitted, ExprSlot(slot), x, k);
    case Call(callee, _, _, args, _) =>
      if k in RefsAll(t, args) {
        AllRefsCovered(p, t, emitted, ExprSlot(slot), args, k);
        ArgsFound(t, slot, n, k);
      } else {
        if CalleeTarget(t, callee) == None {
          RefsCovered(p, t, emitted, ExprSlot(slot), callee, k);
        }
        CalleeFound(t, emitted, slot, n, k);
      }
    case MethodCall(recv, name, _, _, args, _) =>
      if k in Refs(t, recv) {
        RefsCovered(p, t, emitted, ExprSlot(slot), recv, k);
        MethodPartsFound(t, slot, n, k);
      } else if k in RefsAll(t, args) {
        AllRefsCovered(p, t, emitted, ExprSlot(slot), args, k);
        MethodPartsFound(t, slot, n, k);
      } else {
        MethodFound(t, slot, n, k);
      }
    case Shape(tag, _, kids, _) =>
      AllRefsCovered(p, t, emitted, KidSlot(slot, tag), kids, k);
      SkippedSites(kids);
      SkippedSites(AllAfterCalls(t, Skipped, kids));
  }

  lemma {:induction false} AllRefsCovered(p: Program, t: Tables, emitted: set<string>, slot: Slot, ns: seq<Node>, k: Key)
    requires SymbolsFresh(t) && FitsAll(p, t, emitted, slot, ns) && k in RefsAll(t, ns)
    ensures Covered(t, SitesAll(slot, ns), SitesAll(slot, AllAfterCalls(t, slot, ns)), k)
    decreases ns
  {
    hide SymbolsFresh, Covered;
    var ns' := AllAfterCalls(t, slot, ns);
    assert ns'[1..] == AllAfterCalls(t, slot, ns[1..]);
    if k in Refs(t, ns[0]) {
      RefsCovered(p, t, emitted, slot, ns[0], k);
      CoveredMore(t, Sites(slot, ns[0]), Sites(slot, ns'[0]), SitesAll(slot, ns), SitesAll(slot, ns'), k);
    } else {
      AllRefsCovered(p, t, emitted, slot, ns[1..], k);
      CoveredMore(t, SitesAll(slot, ns[1..]), SitesAll(slot, ns'[1..]), SitesAll(slot, ns), SitesAll(slot, ns'), k);
    }
  }

  lemma {:induction false} ArgsFound(t: Tables, slot: Slot, n: Node, k: Key)
    requires n.Call? && var slot' := ExprSlot(slot); Covered(t, SitesAll(slot', n.args), SitesAll(slot', AllAfterCalls(t, slot', n.args)), k)
    ensures Covered(t, Sites(slot, n), Sites(slot, AfterCalls(t, slot, n)), k)
  {
    hide Covered, PhaseTables, SpelledTarget;
    var slot' := ExprSlot(slot);
    if slot == Skipped {
      SkippedSites(n.args);
      SkippedSites(AllAfterCalls(t, Skipped, n.args));
    }
    CoveredMore(t, SitesAll(slot', n.args), SitesAll(slot', AllAfterCalls(t, slot', n.args)), Sites(slot, n), Sites(slot, AfterCalls(t, slot, n)), k);
  }

  lemma {:induction false} SkippedSites(ns: seq<Node>)
    ensures SitesAll(Skipped, ns) == {}
  {
    if ns != [] {
      SkippedSites(ns[1..]);
    }
  }

  lemma {:induction false} CalleeFound(t: Tables, emitted: set<string>, slot: Slot, n: Node, k: Key)
    requires SymbolsFresh(t) && n.Call? && CalleeFits(t, emitted, slot, n.callee) && k in Refs(t, n) && k !in RefsAll(t, n.args)
    requires CalleeTarget(t, n.callee) == None ==>
      var slot' := ExprSlot(slot); Covered(t, Sites(slot', n.callee), Sites(slot', AfterCalls(t, slot', n.callee)), k)
    ensures Covered(t, Sites(slot, n), Sites(slot, AfterCalls(t, slot, n)), k)
  {
    match CalleeTarget(t, n.callee)
    case None =>
      hide CallRef, LetRef;
      var slot' := ExprSlot(slot);
      if slot != Skipped {
        assert AfterCalls(t, slot, n).callee == AfterCalls(t, slot', n.callee);
        CoveredMore(t, Sites(slot', n.callee), Sites(slot', AfterCalls(t, slot', n.callee)), Sites(slot, n), Sites(slot, AfterCalls(t, slot, n)), k);
      }
    case Some(target) =>
      hide Rewrite;
      if SpelledTarget(t, n.callee).Some? {
        var s := if n.callee.Ident? then BareSite(n.callee.name) else QualSite(n.callee.x.name, n.callee.name);
        assert s in CalleeSites(n.callee) && Lookup(t, s) == Some(Def(k));
        assert s in Sites(slot, n);
      }
  }

  lemma {:induction false} MethodFound(t: Tables, slot: Slot, n: Node, k: Key)
    requires n.MethodCall? && slot == Spliced && MethodTarget(t, n.recv.ty, n.name).Some? && k == StdMethod(MethodTarget(t, n.recv.ty, n.name).value)
    ensures Covered(t, Sites(slot, n), Sites(slot, AfterCalls(t, slot, n)), k)
  {
  }

  /** The receiver and arguments are still there after the rewriting, whether or not the call was replaced. */
  lemma {:induction false} MethodPartsFound(t: Tables, slot: Slot, n: Node, k: Key)
    requires n.MethodCall?
    requires var slot' := ExprSlot(slot);
      || Covered(t, Sites(slot', n.recv), Sites(slot', AfterCalls(t, slot', n.recv)), k)
      || Covered(t, SitesAll(slot', n.args), SitesAll(slot', AllAfterCalls(t, slot', n.args)), k)
    ensures Covered(t, Sites(slot, n), Sites(slot, AfterCalls(t, slot, n)), k)
  {
    hide Covered, PhaseTables;
    var slot' := ExprSlot(slot);
    var recv', args' := AfterCalls(t, slot', n.recv), AllAfterCalls(t, slot', n.args);
    if slot == Skipped {
      SkippedSites(n.args);
      SkippedSites(args');
    }
    assert ([recv'] + args')[1..] == args';
    assert Sites(slot', recv') + SitesAll(slot', args') <= Sites(slot, AfterCalls(t, slot, n));
    if Covered(t, Sites(slot', n.recv), Sites(slot', recv'), k) {
      CoveredMore(t, Sites(slot', n.recv), Sites(slot', recv'), Sites(slot, n), Sites(slot, AfterCalls(t, slot, n)), k);
    } else {
      CoveredMore(t, SitesAll(slot', n.args), SitesAll(slot', args'), Sites(slot, n), Sites(slot, AfterCalls(t, slot, n)), k);
    }
  }

  /** A body that calls nothing is left alone by the call phase, and the scans find no call in it. */
  lemma {:induction false} CallsNothingLeft(t: Tables, slot: Slot, n: Node)
    requires CallsNothing(t, n)
    ensures AfterCalls(t, slot, n) == n
    ensures forall s :: s in Sites(slot, n) && !s.GlobalSite? ==> Lookup(t, s) == None
    decreases n
  {
    match n
    case Ident(_, _, _) =>
    case Field(x, _, _) => CallsNothingLeft(t, Spliced, x);
    case Call(callee, _, _, args, _) =>
      CallsNothingLeft(t, Spliced, callee);
      AllCallNothingLeft(t, Spliced, args);
    case MethodCall(recv, _, _, _, args, _) =>
      CallsNothingLeft(t, Spliced, recv);
      AllCallNothingLeft(t, Spliced, args);
    case Shape(tag, _, kids, _) => AllCallNothingLeft(t, KidSlot(slot, tag), kids);
  }

  lemma {:induction false} AllCallNothingLeft(t: Tables, slot: Slot, ns: seq<Node>)
    requires AllCallNothing(t, ns)
    ensures AllAfterCalls(t, slot, ns) == ns
    ensures forall s :: s in SitesAll(slot, ns) && !s.GlobalSite? ==> Lookup(t, s) == None
    decreases ns
  {
    hide Lookup;
    if ns != [] {
      CallsNothingLeft(t, slot, ns[0]);
      AllCallNothingLeft(t, slot, ns[1..]);
    }
  }

  // ---- The output is closed under reference ----

  /** Each function table entry is the user function of that name. */
  ghost predicate OwnFits(p: Program, t: Tables) {
    forall x :: x in t.own ==> t.own[x] == UserFn(x) && UserFn(x) in p.defs && x !in t.globals
  }

  /** An item reaches in a phase what its sites of that phase resolve to. */
  lemma {:induction false} SiteReaches(p: Program, impls: map<MethodKey, set<MethodKey>>, phase: Phase, k: Key, s: Site, m: Key)
    requires WellFormed(p) && k in p.defs && s in Sites(Walked, BaseBody(p, phase, k)) && InPhase(phase, s)
    requires Lookup(KeyTables(p, k), s) == Some(Def(m))
    ensures var succ := JobOf(p, impls, phase).succ; m in succ && m in succ[k]
  {
    hide Sites, WellFormed, BaseBody, Expand;
    var t, body := KeyTables(p, k), BaseBody(p, phase, k);
    assert s in PhaseSites(impls, phase, k.UserFn?, body) by {
      ExpandKeeps(impls, Sites(Walked, body), s);
    }
    assert Lookup(PhaseTables(phase, t), s) == Some(Def(m));
    DefinedTarget(p, p.defs[k].scope, s, m);
  }

  lemma {:induction false} ExpandKeeps(impls: map<MethodKey, set<MethodKey>>, sites: set<Site>, s: Site)
    requires s in sites
    ensures s in Expand(impls, sites)
  {
  }

  lemma {:induction false} CallRefReached(p: Program, impls: map<MethodKey, set<MethodKey>>, k: Key, m: Key)
    requires WellFormed(p) && k in CallItems(p, impls) && k in p.defs && CallRef(KeyTables(p, k), Sites(Walked, p.defs[k].body), m)
    ensures m in CallItems(p, impls)
  {
    hide Closure, Sites, WellFormed, JobOf, Lookup;
    var s :| s in Sites(Walked, p.defs[k].body) && !s.GlobalSite? && Lookup(KeyTables(p, k), s) == Some(Def(m));
    SiteReaches(p, impls, Calls, k, s, m);
    ClosureExtends(JobOf(p, impls, Calls).succ, UserKeys(p), k, m);
  }

  lemma {:induction false} DefinedTarget(p: Program, scope: Scope, s: Site, m: Key)
    requires WellFormed(p) && Lookup(ScopeTables(p, scope), s) == Some(Def(m))
    ensures m in p.defs && (m.StdLet? <==> s.GlobalSite?)
  {
    ScopeResolves(p, scope);
  }

  lemma {:induction false} LetRefReached(p: Program, impls: map<MethodKey, set<MethodKey>>, k: Key, m: Key)
    requires WellFormed(p) && k in Items(p, impls) && k in p.defs && LetRef(KeyTables(p, k), Sites(Walked, BaseBody(p, Lets, k)), m)
    ensures m in Items(p, impls)
  {
    hide Closure, Sites, WellFormed, BaseBody, CallItems, JobOf;
    var t := KeyTables(p, k);
    var x :| x in t.globals && GlobalSite(x) in Sites(Walked, BaseBody(p, Lets, k)) && t.globals[x] == m;
    SiteReaches(p, impls, Lets, k, GlobalSite(x), m);
    ClosureExtends(JobOf(p, impls, Lets).succ, CallItems(p, impls), k, m);
  }

  lemma {:induction false} LetsReachLets(p: Program, impls: map<MethodKey, set<MethodKey>>, k: Key, m: Key)
    requires WellFormed(p) && k in p.defs && m in JobOf(p, impls, Lets).succ[k]
    ensures m.StdLet?
  {
    hide WellFormed, TablesResolve, BaseBody, PhaseTables, PhaseSites, Lookup;
    ScopeResolves(p, p.defs[k].scope);
    PhaseResolves(p, Lets, KeyTables(p, k));
  }

  /** The call items are items, and the only ones that are not globals. */
  lemma {:induction false} ItemsSplit(p: Program, impls: map<MethodKey, set<MethodKey>>)
    requires WellFormed(p)
    ensures UserKeys(p) <= CallItems(p, impls) <= Items(p, impls) <= p.defs.Keys
    ensures forall k :: k in Items(p, impls) ==> k.StdLet? || k in CallItems(p, impls)
  {
    hide WellFormed, Closure, JobOf;
    var calls, lets := JobOf(p, impls, Calls).succ, JobOf(p, impls, Lets).succ;
    JobKeys(p, impls, Calls);
    JobKeys(p, impls, Lets);
    ClosureIsLeast(calls, UserKeys(p));
    ClosureIsLeast(lets, CallItems(p, impls));
    ClosureInside(calls, UserKeys(p));
    ClosureInside(lets, CallItems(p, impls));
    var s := CallItems(p, impls) + set k | k in p.defs && k.StdLet?;
    forall k, m | k in s && k in lets && m in lets[k] && m in lets
      ensures m in s
    {
      LetsReachLets(p, impls, k, m);
    }
    assert Closed(lets, s) && Seeded(lets, CallItems(p, impls), s);
  }

  lemma {:induction false} JobKeys(p: Program, impls: map<MethodKey, set<MethodKey>>, phase: Phase)
    ensures JobOf(p, impls, phase).succ.Keys == p.defs.Keys
  {
  }

  lemma {:induction false} ClosureInside<K(!new)>(succ: map<K, set<K>>, roots: set<K>)
    ensures Closure(succ, roots) <= succ.Keys
  {
  }

  /** Everything an injected body refers to is injected. */
  lemma {:induction false} RefsInjected(p: Program, impls: map<MethodKey, set<MethodKey>>, emitted: set<string>, k: Key)
    requires WellFormed(p) && k in Items(p, impls) && k in p.defs && OwnFits(p, KeyTables(p, k))
    requires Fits(p, KeyTables(p, k), emitted, Walked, p.defs[k].body)
    requires k.StdLet? ==> CallsNothing(KeyTables(p, k), p.defs[k].body)
    ensures Refs(KeyTables(p, k), p.defs[k].body) <= Items(p, impls)
  {
    hide WellFormed, TablesResolve, SymbolsFresh, Fits, CallsNothing, Refs, Sites, Items, CallItems, Rewrite, LetRef;
    var t, body := KeyTables(p, k), p.defs[k].body;
    ItemsSplit(p, impls);
    ScopeResolves(p, p.defs[k].scope);
    ResolvesFresh(p, t);
    if k.StdLet? {
      CallsNothingLeft(t, Walked, body);
    }
    assert AfterCalls(t, Walked, body) == BaseBody(p, Lets, k);
    forall m | m in Refs(t, body)
      ensures m in Items(p, impls)
    {
      RefsCovered(p, t, emitted, Walked, body, m);
      if m in t.own.Values {
        assert m in UserKeys(p);
      } else if CallRef(t, Sites(Walked, body), m) {
        CallRefReached(p, impls, k, m);
      } else {
        LetRefReached(p, impls, k, m);
      }
    }
  }

  // ---- Symbols ----

  /** Names as the mangling and the runtime expect them. */
  ghost predicate CleanKey(k: Key) {
    match k
    case StdFn(m, f) => Separable(m) && Single(f)
    case StdMethod(MethodKey(m, t, _)) => Separable(m) && Separable(t)
    case StdLet(m, x) => Separable(m) && Single(x)
    case UserFn(f) => !("osty_std_" <= f) && !("std." <= f)
  }

  /** A module's functions and globals share one name space. */
  ghost predicate NoFnLetClash(k1: Key, k2: Key) {
    k1.StdFn? && k2.StdLet? ==> k1.owner != k2.owner || k1.name != k2.name
  }

  lemma {:induction false} SymbolPrefix(k: Key)
    requires CleanKey(k)
    ensures !k.UserFn? <==> "osty_std_" <= Symbol(k)
    ensures !("std." <= Symbol(k))
  {
    assert !k.UserFn? ==> Symbol(k)[0] == 'o' && "std."[0] == 's';
  }

  /** Different items get different symbols. */
  lemma {:induction false} SymbolsDiffer(k1: Key, k2: Key)
    requires CleanKey(k1) && CleanKey(k2) && k1 != k2 && NoFnLetClash(k1, k2) && NoFnLetClash(k2, k1)
    ensures Symbol(k1) != Symbol(k2)
  {
    hide StdlibSymbol, StdlibMethodSymbol, Separable, Single;
    if Symbol(k1) == Symbol(k2) {
      if k1.UserFn? || k2.UserFn? {
        SymbolPrefix(k1);
        SymbolPrefix(k2);
      } else if k1.StdMethod? && k2.StdMethod? {
        MethodSymbolsInjective(k1.method_.owner, k1.method_.typeName, k1.method_.name, k2.method_.owner, k2.method_.typeName, k2.method_.name);
      } else if k1.StdMethod? {
        FnAndMethodSymbolsDiffer(k2.owner, k2.name, k1.method_.owner, k1.method_.typeName, k1.method_.name);
      } else if k2.StdMethod? {
        FnAndMethodSymbolsDiffer(k1.owner, k1.name, k2.method_.owner, k2.method_.typeName, k2.method_.name);
      } else {
        FnSymbolsInjective(k1.owner, k1.name, k2.owner, k2.name);
      }
    }
  }

  ghost predicate NamesFit(p: Program) {
    && (forall k :: k in p.defs ==> CleanKey(k))
    && (forall k1, k2 :: k1 in p.defs && k2 in p.defs ==> NoFnLetClash(k1, k2))
  }

  /** The runtime symbols the tables can send a call to, all of them spelled `std.…`. */
  ghost predicate RuntimeFits(p: Program, runtime: set<string>) {
    && (forall s :: s in runtime ==> "std." <= s)
    && (forall scope, x :: scope in p.tables && x in p.tables[scope].bare && p.tables[scope].bare[x].Runtime? ==> p.tables[scope].bare[x].sym in runtime)
    && (forall scope, x :: scope in p.tables && x in p.tables[scope].qual && p.tables[scope].qual[x].Runtime? ==> p.tables[scope].qual[x].sym in runtime)
  }

  /** The emitted module that holds some items. */
  ghost predicate Holds(p: Program, items: set<Key>, o: Output) {
    && items <= p.defs.Keys
    && (forall k :: k in items && !k.StdLet? ==> Symbol(k) in o.fns && o.fns[Symbol(k)] == EmittedOf(p, k))
    && (forall k :: k in items && k.StdLet? ==> Symbol(k) in o.globals && o.globals[Symbol(k)] == EmittedOf(p, k))
    && (forall s :: s in o.fns ==> exists k :: k in items && !k.StdLet? && Symbol(k) == s)
    && (forall s :: s in o.globals ==> exists k :: k in items && k.StdLet? && Symbol(k) == s)
  }

  lemma {:induction false} HoldsApart(p: Program, items: set<Key>, o: Output)
    requires NamesFit(p) && RuntimeFits(p, o.runtime) && Holds(p, items, o)
    ensures OutputFits(o)
  {
    hide Symbol, CleanKey, NoFnLetClash, EmittedOf;
    forall s | s in o.fns
      ensures s !in o.globals && s !in o.runtime
    {
      var k :| k in items && !k.StdLet? && Symbol(k) == s;
      SymbolPrefix(k);
      if s in o.globals {
        var k' :| k' in items && k'.StdLet? && Symbol(k') == s;
        SymbolsDiffer(k, k');
      }
    }
    forall s | s in o.globals
      ensures s !in o.runtime
    {
      var k :| k in items && k.StdLet? && Symbol(k) == s;
      SymbolPrefix(k);
    }
  }

  /** Puts one more item out under its symbol. */
  function PutOut(o: Output, k: Key, e: Emitted): Output {
    if k.StdLet? then o.(globals := o.globals[Symbol(k) := e]) else o.(fns := o.fns[Symbol(k) := e])
  }

  lemma {:induction false} HoldsMore(p: Program, items: set<Key>, o: Output, k: Key)
    requires NamesFit(p) && Holds(p, items, o) && k in p.defs && k !in items
    ensures Holds(p, items + {k}, PutOut(o, k, EmittedOf(p, k)))
  {
    hide Symbol, EmittedOf, CleanKey, NoFnLetClash;
    forall k' | k' in items
      ensures Symbol(k') != Symbol(k)
    {
      SymbolsDiffer(k', k);
    }
    var o' := PutOut(o, k, EmittedOf(p, k));
    forall s | s in o'.fns
      ensures exists k' :: k' in items + {k} && !k'.StdLet? && Symbol(k') == s
    {
      if s in o.fns {
        var k' :| k' in items && !k'.StdLet? && Symbol(k') == s;
        assert k' in items + {k};
      } else {
        assert k in items + {k} && Symbol(k) == s;
      }
    }
    forall s | s in o'.globals
      ensures exists k' :: k' in items + {k} && k'.StdLet? && Symbol(k') == s
    {
      if s in o.globals {
        var k' :| k' in items && k'.StdLet? && Symbol(k') == s;
        assert k' in items + {k};
      } else {
        assert k in items + {k} && Symbol(k) == s;
      }
    }
  }

  /** The injection and its output: one definition for each item reached, under the item's symbol. */
  method InjectModule(p: Program, impls: map<MethodKey, set<MethodKey>>, runtime: set<string>) returns (o: Output)
    requires WellFormed(p) && NamesFit(p)
    ensures o.runtime == runtime && Holds(p, Items(p, impls), o)
  {
    hide WellFormed, NamesFit, Items, EmittedOf, Symbol, Holds;
    var keys, bodies := InjectReachable(p, impls);
    o := Output(map[], map[], runtime);
    ghost var held := {};
    assert Holds(p, held, o) by { HoldsNothing(p, o); }
    for i := 0 to |keys|
      invariant o.runtime == runtime && held == (set k | k in keys[..i]) && Holds(p, held, o)
    {
      var k := keys[i];
      assert k !in keys[..i];
      var next := keys[..i + 1];
      assert next == keys[..i] + [k];
      assert (set x | x in next) == held + {k};
      HoldsMore(p, held, o, k);
      held := held + {k};
      EmittedParts(p, k);
      o := PutOut(o, k, Emitted(FreeGenerics(p.defs[k]), FreeParams(p.defs[k]), bodies[i]));
    }
    assert keys[..|keys|] == keys;
  }

  lemma {:induction false} HoldsNothing(p: Program, o: Output)
    requires o.fns == map[] && o.globals == map[]
    ensures Holds(p, {}, o)
  {
  }

  lemma {:induction false} EmittedParts(p: Program, k: Key)
    requires k in p.defs
    ensures EmittedOf(p, k) == Emitted(FreeGenerics(p.defs[k]), FreeParams(p.defs[k]), EmittedOf(p, k).body)
  {
  }

  /** The user's program and what it pulls in sit where the passes reach them. */
  ghost predicate ProgramFits(p: Program, items: set<Key>, emitted: set<string>) {
    && (forall scope :: scope in p.tables ==> OwnFits(p, p.tables[scope]))
    && (forall k :: k in items && k in p.defs ==>
          && Fits(p, KeyTables(p, k), emitted, Walked, p.defs[k].body)
          && (k.StdLet? ==> CallsNothing(KeyTables(p, k), p.defs[k].body)))
  }

  lemma {:induction false} TablesFitOutput(p: Program, o: Output, scope: Scope)
    requires WellFormed(p) && RuntimeFits(p, o.runtime) && scope in p.tables && OwnFits(p, p.tables[scope])
    ensures TablesFit(p.tables[scope], o)
  {
    var t := p.tables[scope];
    assert TablesResolve(p, t);
    forall x | x in t.bare
      ensures TargetFits(t.bare[x], o)
    {
      assert Lookup(t, BareSite(x)) == Some(t.bare[x]);
    }
    forall x | x in t.qual
      ensures TargetFits(t.qual[x], o)
    {
      assert Lookup(t, QualSite(x.0, x.1)) == Some(t.qual[x]);
    }
    forall x | x in t.globals
      ensures t.globals[x].StdLet?
    {
      assert Lookup(t, GlobalSite(x)) == Some(Def(t.globals[x]));
    }
  }

  /** A module that holds exactly what the injection puts out is linked. */
  lemma {:induction false} InjectionLinks(p: Program, impls: map<MethodKey, set<MethodKey>>, o: Output)
    requires WellFormed(p) && NamesFit(p) && RuntimeFits(p, o.runtime)
    requires Holds(p, Items(p, impls), o) && ProgramFits(p, Items(p, impls), Symbols(o))
    ensures Linked(p, o, Items(p, impls))
  {
    hide WellFormed, NamesFit, RuntimeFits, OutputFits, TablesFit, OwnFits, Items, Symbols, Fits, Refs, CallsNothing, EmittedOf, Symbol, KeyTables;
    HoldsApart(p, Items(p, impls), o);
    forall scope | scope in p.tables
      ensures TablesFit(p.tables[scope], o)
    {
      TablesFitOutput(p, o, scope);
    }
    forall k | k in Items(p, impls)
      ensures ItemFits(p, o, Items(p, impls), k)
    {
      KeyTablesOf(p, k);
      RefsInjected(p, impls, Symbols(o), k);
    }
  }

  lemma {:induction false} KeyTablesOf(p: Program, k: Key)
    requires k in p.defs && forall scope :: scope in p.tables ==> OwnFits(p, p.tables[scope])
    ensures KeyTables(p, k) == ScopeTables(p, p.defs[k].scope) && OwnFits(p, KeyTables(p, k))
  {
  }

  /**
   The injection, end to end: in the module that holds what it puts out, every user function means
   what it meant in the source program, under every semantics and to every depth.
   */
  lemma {:induction false} InjectionKeepsMeaning<D>(sem: Semantics<D>, p: Program, impls: map<MethodKey, set<MethodKey>>, o: Output, depth: nat, f: string)
    requires WellFormed(p) && NamesFit(p) && RuntimeFits(p, o.runtime)
    requires Holds(p, Items(p, impls), o) && ProgramFits(p, Items(p, impls), Symbols(o))
    requires UserFn(f) in p.defs
    ensures FnAgrees(sem, p, o, depth, UserFn(f))
  {
    hide WellFormed, NamesFit, RuntimeFits, Holds, ProgramFits, Linked, Items, Symbols, FnAgrees;
    ItemsSplit(p, impls);
    InjectionLinks(p, impls, o);
    ItemKeepsMeaning(sem, p, o, Items(p, impls), depth, UserFn(f));
  }
}
