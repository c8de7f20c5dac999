/**
 Pulling stdlib functions, methods and globals into a user module.  A worklist demands what the
 queued bodies refer to, lowers each item once, and rewrites each body in place, one site at a time;
 a second run of the same loop does the globals.
 */
module Inject {

  import opened Ir
  import opened Link
  import opened LinkMeaning
  import opened Meaning
  import opened Passes
  import opened Reachability
  import opened Wrappers

  /** Calls (bare, qualified, methods) are closed first, then reads of globals. */
  datatype Phase = Calls | Lets

  predicate InPhase(phase: Phase, s: Site) {
    phase == Lets <==> s.GlobalSite?
  }

  function PhaseTables(phase: Phase, t: Tables): Tables {
    match phase
    case Calls => Tables(t.bare, t.qual, t.methods, map[], map[])
    case Lets => GlobalsOnly(t)
  }

  function Lookup(t: Tables, s: Site): Option<Target> {
    match s
    case BareSite(x) => if x in t.bare then Some(t.bare[x]) else None
    case QualSite(q, x) => if (q, x) in t.qual then Some(t.qual[(q, x)]) else None
    case MethodSite(k) => if k in t.methods then Some(Def(StdMethod(k))) else None
    case GlobalSite(x) => if x in t.globals then Some(Def(t.globals[x])) else None
  }

  /** A reached interface method also reaches the same method of the types that may implement it. */
  function Expand(impls: map<MethodKey, set<MethodKey>>, sites: set<Site>): set<Site> {
    sites + set k, m | k in impls && MethodSite(k) in sites && m in impls[k] :: MethodSite(m)
  }

  /** Tables resolve to defined items, lets for global reads only, and emitted symbols are not names in them. */
  ghost predicate TablesResolve(p: Program, t: Tables) {
    SymbolsFresh(t) && forall s: Site, k: Key :: Lookup(t, s) == Some(Def(k)) ==> k in p.defs && (k.StdLet? <==> s.GlobalSite?)
  }

  ghost predicate WellFormed(p: Program) {
    forall scope :: scope in p.tables ==> TablesResolve(p, p.tables[scope])
  }

  function KeyTables(p: Program, k: Key): Tables
    requires k in p.defs
  {
    ScopeTables(p, p.defs[k].scope)
  }

  /** An item's body when a phase first sees it. */
  function BaseBody(p: Program, phase: Phase, k: Key): Node
    requires k in p.defs
  {
    if phase == Calls || k.StdLet? then p.defs[k].body
    else Rewrite(PhaseTables(Calls, KeyTables(p, k)), Walked, p.defs[k].body)
  }

  /** The sites a phase deals with in a body, which is scanned more widely when it is the user's. */
  function PhaseSites(impls: map<MethodKey, set<MethodKey>>, phase: Phase, user: bool, n: Node): set<Site> {
    set s | s in Expand(impls, Sites(Walked, n)) + QualSites(user, n) && InPhase(phase, s)
  }

  /** Qualified calls; in a user body a method call on an identifier counts as one. */
  function QualSites(user: bool, n: Node): set<Site> {
    (set s | s in Sites(Walked, n) && s.QualSite?) + (set s | user && s in ReceiverSites(Walked, n) && s.QualSite?)
  }

  /** The items that some sites resolve to. */
  ghost function Resolved(t: Tables, sites: set<Site>): set<Key> {
    set s | s in sites && Lookup(t, s).Some? && Lookup(t, s).value.Def? :: Lookup(t, s).value.key
  }

  /**
   What one phase works on: each item's body and tables, the sites it has to deal with there, and
   the items these resolve to.
   */
  datatype Job = Job(base: map<Key, Node>, tables: map<Key, Tables>, ghost sites: map<Key, set<Site>>, ghost succ: map<Key, set<Key>>)

  ghost predicate JobShape(job: Job) {
    && job.tables.Keys == job.base.Keys && job.sites.Keys == job.base.Keys && job.succ.Keys == job.base.Keys
    && (forall k :: k in job.succ ==> job.succ[k] <= job.base.Keys)
  }

  ghost predicate ItemJobFits(t: Tables, sites: set<Site>, succ: set<Key>) {
    SymbolsFresh(t) && (NoGlobals(sites) || OnlyGlobals(sites)) && succ == Resolved(t, sites)
  }

  ghost predicate JobFits(job: Job) {
    JobShape(job) && forall k :: k in job.base ==> ItemJobFits(job.tables[k], job.sites[k], job.succ[k])
  }

  // ---- The worklist state ----

  /**
   The output so far, item by item, and which items are in it.  New items are queued in the order
   they are put out, so the queue is the output from `head` on.
   */
  datatype State = State(injected: set<Key>, keys: seq<Key>, bodies: seq<Node>, head: nat)

  /** Each injected item is in the output once. */
  ghost predicate Sound(job: Job, st: State) {
    && |st.bodies| == |st.keys| && st.head <= |st.keys|
    && st.injected == (set k | k in st.keys) && st.injected <= job.base.Keys
    && (forall i, j :: 0 <= i < j < |st.keys| ==> st.keys[i] != st.keys[j])
  }

  /** Bodies below `done` are rewritten; from the queue on they are untouched. */
  ghost predicate BodiesFit(job: Job, st: State, done: nat)
    requires JobShape(job) && Sound(job, st)
  {
    && (forall i :: 0 <= i < done && i < |st.keys| ==> Rewritten(job.tables, job.base, job.sites, st.keys[i], st.bodies[i]))
    && (forall i :: st.head <= i < |st.keys| ==> st.keys[i] in job.base && st.bodies[i] == job.base[st.keys[i]])
  }

  ghost predicate Rewritten(tables: map<Key, Tables>, base: map<Key, Node>, sites: map<Key, set<Site>>, k: Key, body: Node) {
    k in tables && k in base && k in sites && body == Rewrite(Restrict(tables[k], sites[k]), Walked, base[k])
  }

  /** What bodies below `done` refer to is injected. */
  ghost predicate RefsFit(job: Job, st: State, done: nat)
    requires JobShape(job) && Sound(job, st)
  {
    forall i :: 0 <= i < done && i < |st.keys| ==> st.keys[i] in job.succ && job.succ[st.keys[i]] <= st.injected
  }

  ghost predicate Within(job: Job, roots: set<Key>, st: State) {
    roots <= st.injected <= Closure(job.succ, roots)
  }

  ghost predicate Ready(job: Job, roots: set<Key>, st: State) {
    JobShape(job) && Sound(job, st) && BodiesFit(job, st, st.head) && RefsFit(job, st, st.head) && Within(job, roots, st)
  }

  /** The item just taken off the queue is being worked on; its sites in `done` have been dealt with. */
  ghost predicate Working(job: Job, roots: set<Key>, st: State, done: set<Site>) {
    && JobShape(job) && Sound(job, st) && st.head > 0
    && BodiesFit(job, st, st.head - 1) && RefsFit(job, st, st.head - 1) && Within(job, roots, st)
    && Partly(job, st, done)
  }

  /** Of the item being worked on, the sites in `done` are rewritten and what they resolve to is injected. */
  ghost predicate Partly(job: Job, st: State, done: set<Site>)
    requires JobShape(job) && Sound(job, st) && st.head > 0
  {
    var k := st.keys[st.head - 1];
    && k in job.tables && k in job.base && k in job.sites && done <= job.sites[k]
    && Resolved(job.tables[k], done) <= st.injected
    && st.bodies[st.head - 1] == Rewrite(Restrict(job.tables[k], done), Walked, job.base[k])
  }

  /** Lowers an item unless that was done before, and queues it. */
  function Demand(base: map<Key, Node>, st: State, k: Key): State
    requires k in base
  {
    if k in st.injected then st
    else State(st.injected + {k}, st.keys + [k], st.bodies + [base[k]], st.head)
  }

  /** Rewrites one site of the body being worked on. */
  function RewriteSite(t: Tables, st: State, s: Site): State
    requires 0 < st.head <= |st.bodies|
  {
    st.(bodies := st.bodies[st.head - 1 := Rewrite(Restrict(t, {s}), Walked, st.bodies[st.head - 1])])
  }

  // ---- One site ----

  lemma {:induction false} DemandSound(job: Job, st: State, k: Key)
    requires JobShape(job) && Sound(job, st) && k in job.base
    ensures Sound(job, Demand(job.base, st, k)) && k in Demand(job.base, st, k).injected
  {
  }

  lemma {:induction false} DemandBodies(job: Job, st: State, k: Key)
    requires JobShape(job) && Sound(job, st) && k in job.base && Sound(job, Demand(job.base, st, k)) && st.head > 0
    requires BodiesFit(job, st, st.head - 1) && RefsFit(job, st, st.head - 1)
    ensures BodiesFit(job, Demand(job.base, st, k), st.head - 1) && RefsFit(job, Demand(job.base, st, k), st.head - 1)
  {
    hide Rewritten;
  }

  lemma {:induction false} DemandPartly(job: Job, st: State, done: set<Site>, k: Key)
    requires JobShape(job) && Sound(job, st) && k in job.base && Sound(job, Demand(job.base, st, k)) && st.head > 0
    requires Partly(job, st, done)
    ensures Partly(job, Demand(job.base, st, k), done)
  {
    hide Rewrite, Restrict, Resolved;
  }

  lemma {:induction false} DemandWithin(job: Job, roots: set<Key>, st: State, k: Key)
    requires JobShape(job) && Within(job, roots, st) && k in Closure(job.succ, roots)
    ensures k in job.base && Within(job, roots, Demand(job.base, st, k))
  {
  }

  /** Demanding an item disturbs nothing. */
  lemma {:induction false} DemandKeeps(job: Job, roots: set<Key>, st: State, done: set<Site>, k: Key)
    requires Working(job, roots, st, done) && k in Closure(job.succ, roots)
    ensures k in job.base && Working(job, roots, Demand(job.base, st, k), done)
  {
    hide BodiesFit, RefsFit, Partly, Within, Closure, Sound, JobShape;
    DemandWithin(job, roots, st, k);
    DemandSound(job, st, k);
    DemandBodies(job, st, k);
    DemandPartly(job, st, done, k);
  }

  lemma {:induction false} PartlyRewritten(job: Job, st: State, done: set<Site>, s: Site, k: Key)
    requires JobShape(job) && Sound(job, st) && st.head > 0 && Partly(job, st, done)
    requires k == st.keys[st.head - 1] && k in job.tables && k in job.sites && k in job.succ && s in job.sites[k]
    requires ItemJobFits(job.tables[k], job.sites[k], job.succ[k]) && Resolved(job.tables[k], {s}) <= st.injected
    ensures Sound(job, RewriteSite(job.tables[k], st, s))
    ensures Partly(job, RewriteSite(job.tables[k], st, s), done + {s})
  {
    hide Rewrite, Restrict, SymbolsFresh;
    var t := job.tables[k];
    assert NoGlobals(done) || OnlyGlobals({s});
    PassesCompose(t, done, {s}, Walked, job.base[k]);
    assert Resolved(t, done + {s}) == Resolved(t, done) + Resolved(t, {s});
  }

  lemma {:induction false} RewriteBodies(job: Job, roots: set<Key>, st: State, s: Site, t: Tables)
    requires JobShape(job) && Sound(job, st) && st.head > 0 && Sound(job, RewriteSite(t, st, s))
    requires BodiesFit(job, st, st.head - 1) && RefsFit(job, st, st.head - 1) && Within(job, roots, st)
    ensures var st' := RewriteSite(t, st, s);
      BodiesFit(job, st', st.head - 1) && RefsFit(job, st', st.head - 1) && Within(job, roots, st')
  {
  }

  /** Rewriting a site moves it to the done ones. */
  lemma {:induction false} SiteRewritten(job: Job, roots: set<Key>, st: State, done: set<Site>, s: Site, k: Key)
    requires Working(job, roots, st, done) && k == st.keys[st.head - 1]
    requires k in job.tables && k in job.sites && k in job.succ && s in job.sites[k]
    requires ItemJobFits(job.tables[k], job.sites[k], job.succ[k]) && Resolved(job.tables[k], {s}) <= st.injected
    ensures Working(job, roots, RewriteSite(job.tables[k], st, s), done + {s})
  {
    hide BodiesFit, RefsFit, Partly, Within, JobShape, ItemJobFits, Resolved, Rewrite, Restrict, Sound;
    assert st.head <= |st.bodies| by { SoundHead(job, st); }
    PartlyRewritten(job, st, done, s, k);
    RewriteBodies(job, roots, st, s, job.tables[k]);
  }

  lemma {:induction false} SoundHead(job: Job, st: State)
    requires Sound(job, st)
    ensures |st.bodies| == |st.keys| && st.head <= |st.keys|
  {
  }

  lemma {:induction false} SiteResolves(job: Job, roots: set<Key>, st: State, s: Site, k: Key, m: Key)
    requires JobShape(job) && Within(job, roots, st) && k in st.injected && k in job.sites && s in job.sites[k]
    requires k in job.tables && k in job.succ && ItemJobFits(job.tables[k], job.sites[k], job.succ[k])
    requires Lookup(job.tables[k], s) == Some(Def(m))
    ensures m in Closure(job.succ, roots) && Resolved(job.tables[k], {s}) == {m}
  {
    hide SymbolsFresh, Lookup;
    assert m in job.succ[k];
    ClosureExtends(job.succ, roots, k, m);
  }

  lemma {:induction false} SiteUnknown(job: Job, st: State, done: set<Site>, s: Site, k: Key)
    requires JobShape(job) && Sound(job, st) && st.head > 0 && Partly(job, st, done)
    requires k == st.keys[st.head - 1] && k in job.tables && k in job.sites && s in job.sites[k]
    requires Lookup(job.tables[k], s) == None
    ensures Partly(job, st, done + {s})
  {
    hide Rewrite;
    var t := job.tables[k];
    assert Restrict(t, done + {s}) == Restrict(t, done);
    assert Resolved(t, done + {s}) == Resolved(t, done);
  }

  lemma {:induction false} CurrentItem(job: Job, roots: set<Key>, st: State, done: set<Site>)
    requires JobFits(job) && Working(job, roots, st, done)
    ensures |st.bodies| == |st.keys| && 0 < st.head <= |st.keys|
    ensures var k := st.keys[st.head - 1];
      && k in st.injected && k in job.tables && k in job.sites && k in job.succ
      && ItemJobFits(job.tables[k], job.sites[k], job.succ[k])
  {
  }

  /** One site: demand the target if it is a definition, then rewrite the site. */
  method DoSite(job: Job, ghost roots: set<Key>, st0: State, ghost done: set<Site>, s: Site) returns (st: State)
    requires JobFits(job) && Working(job, roots, st0, done)
    requires 0 < st0.head <= |st0.keys| && st0.keys[st0.head - 1] in job.sites && s in job.sites[st0.keys[st0.head - 1]]
    ensures Working(job, roots, st, done + {s}) && st.head == st0.head && st0.keys <= st.keys
  {
    hide BodiesFit, RefsFit, Partly, Within, ItemJobFits, Resolved, Rewrite, Restrict, Sound, JobFits, JobShape, Lookup;
    st := st0;
    CurrentItem(job, roots, st, done);
    var k := st.keys[st.head - 1];
    var t := job.tables[k];
    match Lookup(t, s)
    case None =>
      SiteUnknown(job, st, done, s, k);
    case Some(Runtime(sym)) =>
      RuntimeResolves(t, s, sym);
      SiteRewritten(job, roots, st, done, s, k);
      st := RewriteSite(t, st, s);
    case Some(Def(m)) =>
      SiteResolves(job, roots, st, s, k, m);
      DemandKeeps(job, roots, st, done, m);
      DemandSound(job, st, m);
      st := Demand(job.base, st, m);
      CurrentItem(job, roots, st, done);
      SiteRewritten(job, roots, st, done, s, k);
      st := RewriteSite(t, st, s);
  }

  lemma {:induction false} RuntimeResolves(t: Tables, s: Site, sym: string)
    requires Lookup(t, s) == Some(Runtime(sym))
    ensures Resolved(t, {s}) == {}
  {
  }

  /** Some sites of the body being worked on, in any order. */
  method DoSites(job: Job, ghost roots: set<Key>, st0: State, ghost done: set<Site>, sites: set<Site>) returns (st: State)
    requires JobFits(job) && Working(job, roots, st0, done)
    requires 0 < st0.head <= |st0.keys| && st0.keys[st0.head - 1] in job.sites && sites <= job.sites[st0.keys[st0.head - 1]]
    ensures Working(job, roots, st, done + sites) && st.head == st0.head && st0.keys <= st.keys
  {
    hide Working, JobFits;
    st := st0;
    var left := sites;
    ghost var sofar := done;
    while left != {}
      invariant left <= sites && sofar == done + (sites - left)
      invariant Working(job, roots, st, sofar) && st.head == st0.head && st0.keys <= st.keys
      decreases left
    {
      var s :| s in left;
      st := DoSite(job, roots, st, sofar, s);
      left := left - {s};
      sofar := sofar + {s};
    }
    assert sofar == done + sites;
  }

  // ---- One item ----

  function BareSites(n: Node): set<Site> {
    set s | s in Sites(Walked, n) && s.BareSite?
  }

  /** The methods a body reaches, those that may implement an interface method included. */
  function MethodSites(impls: map<MethodKey, set<MethodKey>>, n: Node): set<Site> {
    Expand(impls, set s | s in Sites(Walked, n) && s.MethodSite?)
  }

  function GlobalSites(n: Node): set<Site> {
    set s | s in Sites(Walked, n) && s.GlobalSite?
  }

  /** The sites of an item are those its untouched body has. */
  ghost predicate Scanned(job: Job, phase: Phase, impls: map<MethodKey, set<MethodKey>>) {
    forall k :: k in job.base && k in job.sites ==> job.sites[k] == PhaseSites(impls, phase, k.UserFn?, job.base[k])
  }

  lemma {:induction false} CallSitesSplit(impls: map<MethodKey, set<MethodKey>>, user: bool, n: Node)
    ensures PhaseSites(impls, Calls, user, n) == BareSites(n) + QualSites(user, n) + MethodSites(impls, n)
  {
    hide Sites, ReceiverSites;
  }

  lemma {:induction false} LetSitesSplit(impls: map<MethodKey, set<MethodKey>>, user: bool, n: Node)
    ensures PhaseSites(impls, Lets, user, n) == GlobalSites(n)
  {
    hide Sites, ReceiverSites;
  }

  /** A body is scanned for qualified calls after its bare calls are rewritten; that shows the same. */
  lemma {:induction false} QualScan(t: Tables, user: bool, n: Node)
    ensures QualSites(user, Rewrite(Restrict(t, BareSites(n)), Walked, n)) == QualSites(user, n)
  {
    var done := BareSites(n);
    var n' := Rewrite(Restrict(t, done), Walked, n);
    forall s: Site | s.QualSite?
      ensures s in Sites(Walked, n') <==> s in Sites(Walked, n)
    {
      ScanStable(t, done, Walked, n, s);
    }
    ReceiverScanStable(t, done, Walked, n);
    hide Sites, ReceiverSites, Rewrite, Restrict;
    assert (set s | s in Sites(Walked, n') && s.QualSite?) == (set s | s in Sites(Walked, n) && s.QualSite?);
  }

  /** So does the scan for methods after both kinds of calls are rewritten. */
  lemma {:induction false} MethodScan(impls: map<MethodKey, set<MethodKey>>, t: Tables, user: bool, n: Node)
    ensures MethodSites(impls, Rewrite(Restrict(t, BareSites(n) + QualSites(user, n)), Walked, n)) == MethodSites(impls, n)
  {
    var done := BareSites(n) + QualSites(user, n);
    var n' := Rewrite(Restrict(t, done), Walked, n);
    forall s: Site | s.MethodSite?
      ensures s in Sites(Walked, n') <==> s in Sites(Walked, n)
    {
      ScanStable(t, done, Walked, n, s);
    }
    hide Sites, Rewrite, Restrict;
    assert (set s | s in Sites(Walked, n') && s.MethodSite?) == (set s | s in Sites(Walked, n) && s.MethodSite?);
  }

  lemma {:induction false} CurrentBody(job: Job, roots: set<Key>, st: State, done: set<Site>)
    requires JobFits(job) && Working(job, roots, st, done)
    ensures |st.bodies| == |st.keys| && 0 < st.head <= |st.keys|
    ensures var k := st.keys[st.head - 1];
      k in job.base && k in job.tables && k in job.sites && st.bodies[st.head - 1] == Rewrite(Restrict(job.tables[k], done), Walked, job.base[k])
  {
    hide BodiesFit, RefsFit, Within, ItemJobFits, Rewrite, Restrict;
  }

  lemma {:induction false} NothingRestricted(t: Tables, slot: Slot, n: Node)
    ensures Rewrite(Restrict(t, {}), slot, n) == n
    decreases n
  {
    match n
    case Ident(_, _, _) =>
    case Field(x, _, _) => NothingRestricted(t, Spliced, x);
    case Call(callee, _, _, args, _) =>
      NothingRestricted(t, Spliced, callee);
      NothingRestrictedAll(t, Spliced, args);
    case MethodCall(recv, _, _, _, args, _) =>
      NothingRestricted(t, Spliced, recv);
      NothingRestrictedAll(t, Spliced, args);
    case Shape(tag, _, kids, _) => NothingRestrictedAll(t, KidSlot(slot, tag), kids);
  }

  lemma {:induction false} NothingRestrictedAll(t: Tables, slot: Slot, ns: seq<Node>)
    ensures RewriteAll(Restrict(t, {}), slot, ns) == ns
    decreases ns
  {
    if ns != [] {
      NothingRestricted(t, slot, ns[0]);
      NothingRestrictedAll(t, slot, ns[1..]);
    }
  }

  /** Calls: bare, then qualified, then methods, each scanned in the body as it then is. */
  method DoCalls(job: Job, impls: map<MethodKey, set<MethodKey>>, ghost roots: set<Key>, st0: State) returns (st: State)
    requires JobFits(job) && Scanned(job, Calls, impls) && Working(job, roots, st0, {})
    requires 0 < st0.head <= |st0.keys| && st0.keys[st0.head - 1] in job.sites
    ensures Working(job, roots, st, job.sites[st0.keys[st0.head - 1]]) && st.head == st0.head && st0.keys <= st.keys
  {
    hide Working, JobFits, Scanned, Rewrite, Restrict, Sites, BareSites, QualSites, MethodSites, PhaseSites;
    var k := st0.keys[st0.head - 1];
    var user := k.UserFn?;
    CurrentBody(job, roots, st0, {});
    ghost var t, n := job.tables[k], job.base[k];
    NothingRestricted(t, Walked, n);
    ghost var all := job.sites[k];
    assert all == BareSites(n) + QualSites(user, n) + MethodSites(impls, n) by {
      CallSitesSplit(impls, user, n);
      ScannedAt(job, Calls, impls, k);
    }
    st := st0;
    st := DoSites(job, roots, st, {}, BareSites(st.bodies[st.head - 1]));
    CurrentBody(job, roots, st, {} + BareSites(n));
    assert {} + BareSites(n) == BareSites(n);
    QualScan(t, user, n);
    st := DoSites(job, roots, st, BareSites(n), QualSites(user, st.bodies[st.head - 1]));
    CurrentBody(job, roots, st, BareSites(n) + QualSites(user, n));
    MethodScan(impls, t, user, n);
    st := DoSites(job, roots, st, BareSites(n) + QualSites(user, n), MethodSites(impls, st.bodies[st.head - 1]));
  }

  lemma {:induction false} ScannedAt(job: Job, phase: Phase, impls: map<MethodKey, set<MethodKey>>, k: Key)
    requires Scanned(job, phase, impls) && k in job.base && k in job.sites
    ensures job.sites[k] == PhaseSites(impls, phase, k.UserFn?, job.base[k])
  {
  }

  /**
   Reads of globals, in one scan.  The source scans and rewrites an initialiser through a function made
   up around it, which works because that function shares the initialiser's node with the declaration;
   here the declaration's body itself is the tree rewritten.
   */
  method DoLets(job: Job, ghost impls: map<MethodKey, set<MethodKey>>, ghost roots: set<Key>, st0: State) returns (st: State)
    requires JobFits(job) && Scanned(job, Lets, impls) && Working(job, roots, st0, {})
    requires 0 < st0.head <= |st0.keys| && st0.keys[st0.head - 1] in job.sites
    ensures Working(job, roots, st, job.sites[st0.keys[st0.head - 1]]) && st.head == st0.head && st0.keys <= st.keys
  {
    hide Working, JobFits, Scanned, Rewrite, Restrict, Sites, GlobalSites, PhaseSites;
    ghost var k := st0.keys[st0.head - 1];
    CurrentBody(job, roots, st0, {});
    ghost var n := job.base[k];
    NothingRestricted(job.tables[k], Walked, n);
    assert job.sites[k] == GlobalSites(n) by {
      LetSitesSplit(impls, k.UserFn?, n);
      ScannedAt(job, Lets, impls, k);
    }
    st := DoSites(job, roots, st0, {}, GlobalSites(st0.bodies[st0.head - 1]));
    assert {} + GlobalSites(n) == GlobalSites(n);
  }

  // ---- The worklist ----

  lemma {:induction false} DistinctCount<T>(s: seq<T>)
    requires forall i, j :: 0 <= i < j < |s| ==> s[i] != s[j]
    ensures |set x | x in s| == |s|
  {
    if s != [] {
      var n := |s| - 1;
      DistinctCount(s[..n]);
      assert (set x | x in s) == (set x | x in s[..n]) + {s[n]};
    }
  }

  lemma {:induction false} SubsetCount<T>(a: set<T>, b: set<T>)
    requires a <= b
    ensures |a| <= |b|
  {
    assert b == a + (b - a);
  }

  lemma {:induction false} OutputBounded(job: Job, st: State)
    requires Sound(job, st)
    ensures |st.keys| <= |job.base.Keys|
  {
    DistinctCount(st.keys);
    SubsetCount(st.injected, job.base.Keys);
  }

  /** Takes the next item off the queue. */
  lemma {:induction false} TakeNext(job: Job, roots: set<Key>, st: State)
    requires JobFits(job) && Ready(job, roots, st) && st.head < |st.keys|
    ensures Working(job, roots, st.(head := st.head + 1), {})
    ensures st.keys[st.head] in job.sites
  {
    hide ItemJobFits, Closure, Rewrite, Restrict, Rewritten;
    var k := st.keys[st.head];
    assert k in job.base && st.bodies[st.head] == job.base[k];
    NothingRestricted(job.tables[k], Walked, job.base[k]);
    assert Resolved(job.tables[k], {}) == {};
  }

  /** With all its sites dealt with, the item is finished. */
  lemma {:induction false} Finish(job: Job, roots: set<Key>, st: State, k: Key)
    requires JobFits(job) && 0 < st.head <= |st.keys| && k == st.keys[st.head - 1] && k in job.sites
    requires Working(job, roots, st, job.sites[k])
    ensures Ready(job, roots, st)
  {
    hide Within, Rewrite, Restrict, SymbolsFresh, Resolved;
    assert Rewritten(job.tables, job.base, job.sites, k, st.bodies[st.head - 1]);
    assert ItemJobFits(job.tables[k], job.sites[k], job.succ[k]);
  }

  /** At the end of the queue the output is the least closed set that holds the roots. */
  lemma {:induction false} DrainedIsClosure(job: Job, roots: set<Key>, st: State)
    requires Ready(job, roots, st) && st.head == |st.keys|
    ensures st.injected == Closure(job.succ, roots)
  {
    hide BodiesFit, Closure;
    forall k | k in st.injected && k in job.succ
      ensures job.succ[k] <= st.injected
    {
      var i :| 0 <= i < |st.keys| && st.keys[i] == k;
    }
    assert Closed(job.succ, st.injected) && Seeded(job.succ, roots, st.injected);
    ClosureIsLeast(job.succ, roots);
  }

  /** Runs the queue dry. */
  method Drain(job: Job, phase: Phase, impls: map<MethodKey, set<MethodKey>>, ghost roots: set<Key>, st0: State) returns (st: State)
    requires JobFits(job) && Scanned(job, phase, impls) && Ready(job, roots, st0)
    ensures Ready(job, roots, st) && st.head == |st.keys| && st0.keys <= st.keys
    ensures st.injected == Closure(job.succ, roots)
  {
    hide JobFits, Scanned, Working, Closure, BodiesFit, RefsFit, Within, JobShape;
    st := st0;
    while st.head < |st.keys|
      invariant Ready(job, roots, st) && st0.keys <= st.keys
      decreases |job.base.Keys| - st.head
    {
      ghost var k := st.keys[st.head];
      OutputBounded(job, st);
      TakeNext(job, roots, st);
      st := st.(head := st.head + 1);
      if phase == Calls {
        st := DoCalls(job, impls, roots, st);
      } else {
        st := DoLets(job, impls, roots, st);
      }
      Finish(job, roots, st, k);
    }
    DrainedIsClosure(job, roots, st);
  }
}
