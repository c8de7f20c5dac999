/**
 The whole injection: the call phase from the user's functions, then the global phase from what that
 put out; and what the emitted module means.
 */
module Injected {

  import opened Ir
  import opened Link
  import opened LinkMeaning
  import opened Meaning
  import opened Passes
  import opened Reachability
  import opened Inject
  import opened Wrappers

  function JobOf(p: Program, impls: map<MethodKey, set<MethodKey>>, phase: Phase): Job {
    Job(map k | k in p.defs :: BaseBody(p, phase, k),
        map k | k in p.defs :: PhaseTables(phase, KeyTables(p, k)),
        map k | k in p.defs :: PhaseSites(impls, phase, k.UserFn?, BaseBody(p, phase, k)),
        map k | k in p.defs :: Resolved(PhaseTables(phase, KeyTables(p, k)), PhaseSites(impls, phase, k.UserFn?, BaseBody(p, phase, k))))
  }

  function UserKeys(p: Program): set<Key> {
    set k | k in p.defs && k.UserFn?
  }

  /** What the scans for calls demand from the user's functions on, and what reads of globals add to that. */
  ghost function CallItems(p: Program, impls: map<MethodKey, set<MethodKey>>): set<Key> {
    Closure(JobOf(p, impls, Calls).succ, UserKeys(p))
  }

  ghost function Items(p: Program, impls: map<MethodKey, set<MethodKey>>): set<Key> {
    Closure(JobOf(p, impls, Lets).succ, CallItems(p, impls))
  }

  // ---- The jobs fit ----

  lemma {:induction false} ScopeResolves(p: Program, scope: Scope)
    requires WellFormed(p)
    ensures TablesResolve(p, ScopeTables(p, scope))
  {
    if scope !in p.tables {
      var t := ScopeTables(p, scope);
      assert forall s: Site :: Lookup(t, s) == None;
    }
  }

  lemma {:induction false} PhaseResolves(p: Program, phase: Phase, t: Tables)
    requires TablesResolve(p, t)
    ensures TablesResolve(p, PhaseTables(phase, t))
    ensures forall s: Site, k: Key :: Lookup(PhaseTables(phase, t), s) == Some(Def(k)) ==> (k.StdLet? <==> phase == Lets)
  {
    var t' := PhaseTables(phase, t);
    forall s: Site, k: Key | Lookup(t', s) == Some(Def(k))
      ensures Lookup(t, s) == Some(Def(k)) && InPhase(phase, s)
    {
    }
  }

  lemma {:induction false} ResolvedDefined(p: Program, t: Tables, sites: set<Site>)
    requires TablesResolve(p, t)
    ensures Resolved(t, sites) <= p.defs.Keys
  {
  }

  lemma {:induction false} ItemJobOf(p: Program, impls: map<MethodKey, set<MethodKey>>, phase: Phase, user: bool, t: Tables, n: Node)
    requires TablesResolve(p, t)
    ensures var t', sites := PhaseTables(phase, t), PhaseSites(impls, phase, user, n);
      Resolved(t', sites) <= p.defs.Keys && ItemJobFits(t', sites, Resolved(t', sites))
  {
    hide TablesResolve, Resolved, PhaseTables, Expand, Sites;
    PhaseResolves(p, phase, t);
    ResolvedDefined(p, PhaseTables(phase, t), PhaseSites(impls, phase, user, n));
    ResolvesFresh(p, PhaseTables(phase, t));
  }

  lemma {:induction false} JobOfFits(p: Program, impls: map<MethodKey, set<MethodKey>>, phase: Phase)
    requires WellFormed(p)
    ensures var job := JobOf(p, impls, phase);
      JobFits(job) && Scanned(job, phase, impls) && JobShape(job) && job.base.Keys == p.defs.Keys
  {
    hide WellFormed, TablesResolve, BaseBody, Resolved, PhaseTables, PhaseSites, ItemJobFits;
    var job := JobOf(p, impls, phase);
    forall k | k in p.defs
      ensures job.succ[k] <= p.defs.Keys && ItemJobFits(job.tables[k], job.sites[k], job.succ[k])
    {
      ScopeResolves(p, p.defs[k].scope);
      ItemJobOf(p, impls, phase, k.UserFn?, KeyTables(p, k), BaseBody(p, phase, k));
    }
  }

  lemma {:induction false} ResolvesFresh(p: Program, t: Tables)
    requires TablesResolve(p, t)
    ensures SymbolsFresh(t)
  {
  }

  /** Calls never reach a global. */
  lemma {:induction false} CallItemsNoLets(p: Program, impls: map<MethodKey, set<MethodKey>>)
    requires WellFormed(p)
    ensures forall k :: k in CallItems(p, impls) ==> !k.StdLet?
  {
    hide WellFormed, TablesResolve, Rewrite, PhaseTables, PhaseSites, Sites, Closure, Lookup;
    var succ := JobOf(p, impls, Calls).succ;
    var s := set k | k in p.defs && !k.StdLet?;
    forall k: Key, m: Key | k in s && k in succ && m in succ[k]
      ensures !m.StdLet?
    {
      ScopeResolves(p, p.defs[k].scope);
      PhaseResolves(p, Calls, KeyTables(p, k));
    }
    assert Closed(succ, s) && Seeded(succ, UserKeys(p), s);
    ClosureIsLeast(succ, UserKeys(p));
  }

  // ---- The bodies come out fully rewritten ----

  /** The sites of a phase are all that phase's tables can rewrite. */
  lemma {:induction false} PhaseSitesMatter(impls: map<MethodKey, set<MethodKey>>, phase: Phase, user: bool, t: Tables, n: Node)
    requires SymbolsFresh(PhaseTables(phase, t))
    ensures Rewrite(Restrict(PhaseTables(phase, t), PhaseSites(impls, phase, user, n)), Walked, n) == Rewrite(PhaseTables(phase, t), Walked, n)
  {
    hide SymbolsFresh, Rewrite, Sites;
    var t', some := PhaseTables(phase, t), PhaseSites(impls, phase, user, n);
    var all := Sites(Walked, n) + some;
    assert Restrict(t', some) == Restrict(t', all);
    OnlySitesMatter(t', all, Walked, n);
  }

  lemma {:induction false} PhaseRestricts(t: Tables, sites: set<Site>)
    ensures Restrict(PhaseTables(Calls, t), sites) == Restrict(t, set s | s in sites && !s.GlobalSite?)
    ensures Restrict(GlobalsOnly(t), sites) == Restrict(t, set s | s in sites && s.GlobalSite?)
  {
  }

  /** Calls first and globals after is the same as all at once. */
  lemma {:induction false} TwoPhases(t: Tables, n: Node)
    requires SymbolsFresh(t) && SymbolsFresh(PhaseTables(Calls, t)) && SymbolsFresh(GlobalsOnly(t))
    ensures Rewrite(GlobalsOnly(t), Walked, Rewrite(PhaseTables(Calls, t), Walked, n)) == Rewrite(t, Walked, n)
  {
    hide SymbolsFresh, Rewrite, Sites, Restrict, PhaseTables, GlobalsOnly;
    var n' := Rewrite(PhaseTables(Calls, t), Walked, n);
    var all, all' := Sites(Walked, n), Sites(Walked, n) + Sites(Walked, n');
    var calls := set s | s in all && !s.GlobalSite?;
    var lets := set s | s in all' && s.GlobalSite?;
    PhaseRestricts(t, all);
    OnlySitesMatter(PhaseTables(Calls, t), all, Walked, n);
    PhaseRestricts(t, all');
    OnlySitesMatter(GlobalsOnly(t), all', Walked, n');
    PassesCompose(t, calls, lets, Walked, n);
    OnlySitesMatter(t, calls + lets, Walked, n);
  }

  /** What the two phases leave in the output for an item is the item's body, linked. */
  lemma {:induction false} ItemEmitted(p: Program, impls: map<MethodKey, set<MethodKey>>, k: Key, body: Node)
    requires WellFormed(p) && k in p.defs
    requires var job := JobOf(p, impls, Lets); Rewritten(job.tables, job.base, job.sites, k, body)
    ensures body == EmittedOf(p, k).body
  {
    hide SymbolsFresh, Rewrite, PhaseSites, WellFormed, TablesResolve, Lookup, Restrict;
    var t := KeyTables(p, k);
    ScopeResolves(p, p.defs[k].scope);
    ResolvesFresh(p, t);
    forall phase: Phase
      ensures SymbolsFresh(PhaseTables(phase, t))
    {
      PhaseResolves(p, phase, t);
      ResolvesFresh(p, PhaseTables(phase, t));
    }
    assert PhaseTables(Lets, t) == GlobalsOnly(t);
    PhaseSitesMatter(impls, Lets, k.UserFn?, t, BaseBody(p, Lets, k));
    TwoPhases(t, p.defs[k].body);
  }

  // ---- The whole injection ----

  method Enumerate(s: set<Key>) returns (r: seq<Key>)
    ensures (set k | k in r) == s && (forall i :: 0 <= i < |r| ==> r[i] in s)
    ensures forall i, j :: 0 <= i < j < |r| ==> r[i] != r[j]
  {
    r := [];
    var left := s;
    while left != {}
      invariant left <= s && (set k | k in r) == s - left && (forall i :: 0 <= i < |r| ==> r[i] in s - left)
      invariant forall i, j :: 0 <= i < j < |r| ==> r[i] != r[j]
      decreases left
    {
      var k :| k in left;
      assert (set x | x in r + [k]) == (set x | x in r) + {k};
      r := r + [k];
      left := left - {k};
    }
  }

  lemma {:induction false} StartReady(job: Job, roots: set<Key>, st: State)
    requires JobShape(job) && Sound(job, st) && st.head == 0 && st.injected == roots
    requires forall i :: 0 <= i < |st.keys| ==> st.keys[i] in job.base && st.bodies[i] == job.base[st.keys[i]]
    ensures Ready(job, roots, st)
  {
    hide Rewritten;
    forall k | k in roots
      ensures k in Closure(job.succ, roots)
    {
      ClosureStarts(job.succ, roots, k);
    }
    hide Closure;
  }

  /** After the call phase, the output is what the global phase starts from. */
  lemma {:induction false} PhasesMeet(p: Program, impls: map<MethodKey, set<MethodKey>>, st: State)
    requires WellFormed(p) && Ready(JobOf(p, impls, Calls), UserKeys(p), st) && st.head == |st.keys|
    requires st.injected == CallItems(p, impls)
    ensures Ready(JobOf(p, impls, Lets), CallItems(p, impls), st.(head := 0))
  {
    hide WellFormed, TablesResolve, SymbolsFresh, Rewrite, Restrict, PhaseSites, PhaseTables, RefsFit, Resolved, Within, Closure, Sites;
    var calls, lets := JobOf(p, impls, Calls), JobOf(p, impls, Lets);
    JobOfFits(p, impls, Lets);
    CallItemsNoLets(p, impls);
    forall i | 0 <= i < |st.keys|
      ensures st.keys[i] in p.defs && st.bodies[i] == lets.base[st.keys[i]]
    {
      var k := st.keys[i];
      assert Rewritten(calls.tables, calls.base, calls.sites, k, st.bodies[i]);
      assert k in st.injected;
      ScopeResolves(p, p.defs[k].scope);
      PhaseResolves(p, Calls, KeyTables(p, k));
      ResolvesFresh(p, PhaseTables(Calls, KeyTables(p, k)));
      PhaseSitesMatter(impls, Calls, k.UserFn?, KeyTables(p, k), p.defs[k].body);
    }
    StartReady(lets, CallItems(p, impls), st.(head := 0));
  }

  /**
   Every item the scans demand, from the user's functions on, comes out exactly once, linked; nothing else does.  The user's
   functions are the first ones in the queue.
   */
  method InjectReachable(p: Program, impls: map<MethodKey, set<MethodKey>>) returns (keys: seq<Key>, bodies: seq<Node>)
    requires WellFormed(p)
    ensures |bodies| == |keys| && (set k | k in keys) == Items(p, impls)
    ensures forall i, j :: 0 <= i < j < |keys| ==> keys[i] != keys[j]
    ensures forall i :: 0 <= i < |keys| ==> keys[i] in p.defs && bodies[i] == EmittedOf(p, keys[i]).body
  {
    hide WellFormed, JobFits, JobOf, Scanned, BaseBody, EmittedOf, Rewrite, Restrict, Closure, PhaseSites, PhaseTables, Resolved;
    var calls, lets := JobOf(p, impls, Calls), JobOf(p, impls, Lets);
    JobOfFits(p, impls, Calls);
    JobOfFits(p, impls, Lets);
    var first := Enumerate(UserKeys(p));
    assert UserKeys(p) <= calls.base.Keys;
    var st := State(UserKeys(p), first, seq(|first|, i requires 0 <= i < |first| => calls.base[first[i]]), 0);
    StartReady(calls, UserKeys(p), st);
    st := Drain(calls, Calls, impls, UserKeys(p), st);
    PhasesMeet(p, impls, st);
    st := st.(head := 0);
    st := Drain(lets, Lets, impls, CallItems(p, impls), st);
    keys, bodies := st.keys, st.bodies;
    forall i | 0 <= i < |keys|
      ensures keys[i] in p.defs && bodies[i] == EmittedOf(p, keys[i]).body
    {
      assert keys[i] in st.injected;
      assert Rewritten(lets.tables, lets.base, lets.sites, keys[i], bodies[i]);
      ItemEmitted(p, impls, keys[i], bodies[i]);
    }
  }

  // ---- What the user module's scan adds ----

  /** An item the wider scan of a user body demands: one that a method call on an identifier is read as calling. */
  ghost predicate ReceiverDemands(t: Tables, n: Node, k: Key) {
    exists q, x :: QualSite(q, x) in ReceiverSites(Walked, n) && (q, x) in t.qual && t.qual[(q, x)] == Def(k)
  }

  /** A user body demands what its calls resolve to, and what its method calls on identifiers are read as calling. */
  lemma {:induction false} UserDemandIff(impls: map<MethodKey, set<MethodKey>>, t: Tables, n: Node, k: Key)
    ensures k in Resolved(PhaseTables(Calls, t), PhaseSites(impls, Calls, true, n)) <==>
      k in Resolved(PhaseTables(Calls, t), PhaseSites(impls, Calls, false, n)) || ReceiverDemands(t, n, k)
  {
    hide Sites, ReceiverSites, Expand;
    var t', wide, narrow := PhaseTables(Calls, t), PhaseSites(impls, Calls, true, n), PhaseSites(impls, Calls, false, n);
    assert narrow <= wide;
    if k in Resolved(t', wide) {
      var s :| s in wide && Lookup(t', s) == Some(Def(k));
      if s !in narrow {
        assert s.QualSite? && s in ReceiverSites(Walked, n);
      }
    }
    if ReceiverDemands(t, n, k) {
      var q, x :| QualSite(q, x) in ReceiverSites(Walked, n) && (q, x) in t.qual && t.qual[(q, x)] == Def(k);
      assert QualSite(q, x) in wide && Lookup(t', QualSite(q, x)) == Some(Def(k));
    }
  }

  /** A method of the user's own type, called on a local named like a module, pulls in the module's function unused. */
  lemma {:induction false} LocalPullsIn()
    ensures
      var k := StdFn("strings", "trim");
      var t := Tables(map[], map[("strings", "trim") := Def(k)], {}, map[], map[]);
      var n := MethodCall(Ident(Local, "strings", Named("", "Mine", [], false)), "trim", [], [], [], OtherType("String"));
      Refs(t, n) == {} && Rewrite(t, Walked, n) == n && k in Resolved(PhaseTables(Calls, t), PhaseSites(map[], Calls, true, n))
  {
    var k := StdFn("strings", "trim");
    var t := Tables(map[], map[("strings", "trim") := Def(k)], {}, map[], map[]);
    var n := MethodCall(Ident(Local, "strings", Named("", "Mine", [], false)), "trim", [], [], [], OtherType("String"));
    assert QualSite("strings", "trim") in ReceiverSites(Walked, n);
    assert ReceiverDemands(t, n, k);
    UserDemandIff(map[], t, n, k);
  }
}
