/**
 The emitted bodies themselves: which callees and global reads stand in them, and that each is defined
 in the output, unknown to the scope it came from, or where the passes do not reach.
 */
module EmittedBodies {

  import opened Ir
  import opened Link
  import opened LinkMeaning
  import opened Meaning
  import opened Passes
  import opened Inject
  import opened Injected
  import opened Emission
  import opened Wrappers

  /** The name is the symbol of a function or runtime target that one of the sites resolves to. */
  ghost predicate CallSymbol(t: Tables, sites: set<Site>, x: string) {
    exists s, target :: s in sites && !s.GlobalSite? && Lookup(t, s) == Some(target) && TargetSymbol(target) == x
  }

  /** The name is the symbol of a global that is read at one of the sites. */
  ghost predicate ReadSymbol(t: Tables, sites: set<Site>, x: string) {
    exists y :: y in t.globals && GlobalSite(y) in sites && Symbol(t.globals[y]) == x
  }

  lemma {:induction false} CallSymbolMore(t: Tables, a: set<Site>, b: set<Site>, x: string)
    requires CallSymbol(t, a, x) && a <= b
    ensures CallSymbol(t, b, x)
  {
    hide Lookup, TargetSymbol;
  }

  /** The call phase leaves a callee that it wrote, or one that it found and does not know. */
  ghost predicate CalleeTold(t: Tables, sites: set<Site>, x: string) {
    CallSymbol(t, sites, x) || (BareSite(x) in sites && x !in t.bare)
  }

  lemma {:induction false} CalleeToldMore(t: Tables, a: set<Site>, b: set<Site>, x: string)
    requires CalleeTold(t, a, x) && a <= b
    ensures CalleeTold(t, b, x)
  {
    hide CallSymbol;
    if CallSymbol(t, a, x) {
      CallSymbolMore(t, a, b, x);
    }
  }

  lemma {:induction false} CalleesAfterCalls(t: Tables, slot: Slot, n: Node, x: string)
    requires SymbolsFresh(t) && BareSite(x) in Sites(slot, AfterCalls(t, slot, n))
    ensures CalleeTold(t, Sites(slot, n), x)
    decreases n
  {
    if slot != Skipped {
      match n
      case Ident(_, _, _) =>
      case Field(y, _, _) => CalleesAfterCalls(t, Spliced, y, x);
      case Call(callee, _, _, args, _) =>
        hide CalleeTold, SymbolsFresh;
        if BareSite(x) in SitesAll(Spliced, AllAfterCalls(t, Spliced, args)) {
          AllCalleesAfterCalls(t, Spliced, args, x);
          CalleeToldMore(t, SitesAll(Spliced, args), Sites(slot, n), x);
        } else if BareSite(x) in Sites(Spliced, AfterCalls(t, Spliced, callee)) {
          CalleesAfterCalls(t, Spliced, callee, x);
          CalleeToldMore(t, Sites(Spliced, callee), Sites(slot, n), x);
        } else {
          CalleeWritten(t, slot, n, x);
        }
      case MethodCall(recv, _, _, _, args, _) =>
        hide CalleeTold, SymbolsFresh;
        if BareSite(x) in SitesAll(Spliced, AllAfterCalls(t, Spliced, args)) {
          AllCalleesAfterCalls(t, Spliced, args, x);
          CalleeToldMore(t, SitesAll(Spliced, args), Sites(slot, n), x);
        } else if BareSite(x) in Sites(Spliced, AfterCalls(t, Spliced, recv)) {
          CalleesAfterCalls(t, Spliced, recv, x);
          CalleeToldMore(t, Sites(Spliced, recv), Sites(slot, n), x);
        } else {
          MethodWritten(t, slot, n, x);
        }
      case Shape(tag, _, kids, _) => AllCalleesAfterCalls(t, KidSlot(slot, tag), kids, x);
    }
  }

  lemma {:induction false} AllCalleesAfterCalls(t: Tables, slot: Slot, ns: seq<Node>, x: string)
    requires SymbolsFresh(t) && BareSite(x) in SitesAll(slot, AllAfterCalls(t, slot, ns))
    ensures CalleeTold(t, SitesAll(slot, ns), x)
    decreases ns
  {
    hide SymbolsFresh, CalleeTold;
    var ns' := AllAfterCalls(t, slot, ns);
    assert ns'[1..] == AllAfterCalls(t, slot, ns[1..]);
    if BareSite(x) in Sites(slot, ns'[0]) {
      CalleesAfterCalls(t, slot, ns[0], x);
      CalleeToldMore(t, Sites(slot, ns[0]), SitesAll(slot, ns), x);
    } else {
      AllCalleesAfterCalls(t, slot, ns[1..], x);
      CalleeToldMore(t, SitesAll(slot, ns[1..]), SitesAll(slot, ns), x);
    }
  }

  lemma {:induction false} CalleeWritten(t: Tables, slot: Slot, n: Node, x: string)
    requires n.Call? && slot != Skipped && BareSite(x) in Sites(slot, AfterCalls(t, slot, n))
    requires BareSite(x) !in SitesAll(Spliced, AllAfterCalls(t, Spliced, n.args))
    requires BareSite(x) !in Sites(Spliced, AfterCalls(t, Spliced, n.callee)) && SymbolsFresh(t)
    ensures CalleeTold(t, Sites(slot, n), x)
  {
    match SpelledTarget(t, n.callee)
    case None =>
    case Some(target) =>
      var s := if n.callee.Ident? then BareSite(n.callee.name) else QualSite(n.callee.x.name, n.callee.name);
      assert s in CalleeSites(n.callee) && Lookup(t, s) == Some(target);
      assert s in Sites(slot, n) && TargetSymbol(target) == x;
  }

  lemma {:induction false} MethodWritten(t: Tables, slot: Slot, n: Node, x: string)
    requires n.MethodCall? && slot != Skipped && BareSite(x) in Sites(slot, AfterCalls(t, slot, n))
    requires BareSite(x) !in SitesAll(Spliced, AllAfterCalls(t, Spliced, n.args))
    requires BareSite(x) !in Sites(Spliced, AfterCalls(t, Spliced, n.recv))
    ensures CalleeTold(t, Sites(slot, n), x)
  {
    var recv', args' := AfterCalls(t, Spliced, n.recv), AllAfterCalls(t, Spliced, n.args);
    assert ([recv'] + args')[1..] == args';
    var k := MethodTarget(t, n.recv.ty, n.name).value;
    assert MethodSite(k) in Sites(slot, n) && Lookup(t, MethodSite(k)) == Some(Def(StdMethod(k)));
    assert TargetSymbol(Def(StdMethod(k))) == x;
  }

  /** Calls written by the call phase read no globals, so it adds no reads. */
  lemma {:induction false} ReadsAfterCalls(t: Tables, slot: Slot, n: Node, x: string)
    requires GlobalSite(x) in Sites(slot, AfterCalls(t, slot, n))
    ensures GlobalSite(x) in Sites(slot, n)
    decreases n
  {
    if slot != Skipped {
      match n
      case Ident(_, _, _) =>
      case Field(y, _, _) => ReadsAfterCalls(t, Spliced, y, x);
      case Call(callee, _, _, args, _) =>
        if GlobalSite(x) in SitesAll(Spliced, AllAfterCalls(t, Spliced, args)) {
          AllReadsAfterCalls(t, Spliced, args, x);
        } else {
          ReadsAfterCalls(t, Spliced, callee, x);
        }
      case MethodCall(recv, _, _, _, args, _) =>
        var recv', args' := AfterCalls(t, Spliced, recv), AllAfterCalls(t, Spliced, args);
        assert ([recv'] + args')[1..] == args';
        hide MethodTarget, Symbol, TypesOf, OwnerArgs;
        if GlobalSite(x) in SitesAll(Spliced, args') {
          AllReadsAfterCalls(t, Spliced, args, x);
        } else {
          assert GlobalSite(x) in Sites(Spliced, recv');
          ReadsAfterCalls(t, Spliced, recv, x);
        }
      case Shape(tag, _, kids, _) => AllReadsAfterCalls(t, KidSlot(slot, tag), kids, x);
    }
  }

  lemma {:induction false} AllReadsAfterCalls(t: Tables, slot: Slot, ns: seq<Node>, x: string)
    requires GlobalSite(x) in SitesAll(slot, AllAfterCalls(t, slot, ns))
    ensures GlobalSite(x) in SitesAll(slot, ns)
    decreases ns
  {
    var ns' := AllAfterCalls(t, slot, ns);
    assert ns'[1..] == AllAfterCalls(t, slot, ns[1..]);
    if GlobalSite(x) in Sites(slot, ns'[0]) {
      ReadsAfterCalls(t, slot, ns[0], x);
    } else {
      AllReadsAfterCalls(t, slot, ns[1..], x);
    }
  }

  /** The global phase leaves a name that it wrote, or one that it found, unknown if it is read. */
  ghost predicate NameTold(t: Tables, sites: set<Site>, s: Site) {
    (s.BareSite? || s.GlobalSite?) && (ReadSymbol(t, sites, s.name) || (s in sites && (s.GlobalSite? ==> s.name !in t.globals)))
  }

  lemma {:induction false} NameToldMore(t: Tables, a: set<Site>, b: set<Site>, s: Site)
    requires NameTold(t, a, s) && a <= b
    ensures NameTold(t, b, s)
  {
    hide Symbol;
  }

  lemma {:induction false} NamesAfterLets(t: Tables, slot: Slot, n: Node, s: Site)
    requires s.BareSite? || s.GlobalSite?
    requires s in Sites(slot, Rewrite(GlobalsOnly(t), slot, n)) && "" !in t.globals
    ensures NameTold(t, Sites(slot, n), s)
    decreases n
  {
    var t' := GlobalsOnly(t);
    if slot != Skipped {
      match n
      case Ident(_, y, _) =>
        assert s.name != y ==> GlobalSite(y) in Sites(slot, n);
      case Field(y, _, _) => NamesAfterLets(t, Spliced, y, s);
      case Call(callee, _, _, args, _) =>
        hide NameTold;
        if s in SitesAll(Spliced, RewriteAll(t', Spliced, args)) {
          AllNamesAfterLets(t, Spliced, args, s);
          NameToldMore(t, SitesAll(Spliced, args), Sites(slot, n), s);
        } else if s in Sites(Spliced, Rewrite(t', Spliced, callee)) {
          NamesAfterLets(t, Spliced, callee, s);
          NameToldMore(t, Sites(Spliced, callee), Sites(slot, n), s);
        } else {
          CalleeAfterLets(t, slot, n, s);
        }
      case MethodCall(recv, _, _, _, args, _) =>
        hide NameTold;
        RewriteKeepsType(t', Spliced, recv);
        if s in SitesAll(Spliced, RewriteAll(t', Spliced, args)) {
          AllNamesAfterLets(t, Spliced, args, s);
          NameToldMore(t, SitesAll(Spliced, args), Sites(slot, n), s);
        } else {
          assert s in Sites(Spliced, Rewrite(t', Spliced, recv));
          NamesAfterLets(t, Spliced, recv, s);
          NameToldMore(t, Sites(Spliced, recv), Sites(slot, n), s);
        }
      case Shape(tag, _, kids, _) => AllNamesAfterLets(t, KidSlot(slot, tag), kids, s);
    }
  }

  lemma {:induction false} AllNamesAfterLets(t: Tables, slot: Slot, ns: seq<Node>, s: Site)
    requires s.BareSite? || s.GlobalSite?
    requires s in SitesAll(slot, RewriteAll(GlobalsOnly(t), slot, ns)) && "" !in t.globals
    ensures NameTold(t, SitesAll(slot, ns), s)
    decreases ns
  {
    hide NameTold;
    var ns' := RewriteAll(GlobalsOnly(t), slot, ns);
    assert ns'[1..] == RewriteAll(GlobalsOnly(t), slot, ns[1..]);
    if s in Sites(slot, ns'[0]) {
      NamesAfterLets(t, slot, ns[0], s);
      NameToldMore(t, Sites(slot, ns[0]), SitesAll(slot, ns), s);
    } else {
      AllNamesAfterLets(t, slot, ns[1..], s);
      NameToldMore(t, SitesAll(slot, ns[1..]), SitesAll(slot, ns), s);
    }
  }

  lemma {:induction false} CalleeAfterLets(t: Tables, slot: Slot, n: Node, s: Site)
    requires (s.BareSite? || s.GlobalSite?) && n.Call? && slot != Skipped && "" !in t.globals
    requires var t' := GlobalsOnly(t);
      && s in Sites(slot, Rewrite(t', slot, n))
      && s !in SitesAll(Spliced, RewriteAll(t', Spliced, n.args)) && s !in Sites(Spliced, Rewrite(t', Spliced, n.callee))
    ensures NameTold(t, Sites(slot, n), s)
  {
    var callee' := Rewrite(GlobalsOnly(t), Spliced, n.callee);
    assert s in CalleeSites(callee') && s == BareSite(callee'.name);
    if n.callee.name != callee'.name {
      assert GlobalSite(n.callee.name) in Sites(Spliced, n.callee);
      assert GlobalSite(n.callee.name) in Sites(slot, n);
    } else {
      assert s in CalleeSites(n.callee);
    }
  }

  /**
   An emitted body, as the scans see it: each callee is defined in the output, or one the scope never
   knew; so is each global read; and what is left in its source spelling is what the passes do not reach.
   */
  ghost predicate BodyLinked(t: Tables, o: Output, body: Node, source: Node) {
    && (forall x :: BareSite(x) in Sites(Walked, body) ==>
          x in Symbols(o) || (BareSite(x) in Sites(Walked, source) && x !in t.bare))
    && (forall x :: GlobalSite(x) in Sites(Walked, body) ==>
          x in o.globals || (GlobalSite(x) in Sites(Walked, source) && x !in t.globals))
    && (Unlinked(t, body) <==> Missed(t, Walked, source))
  }

  /** The body an item has in the output. */
  ghost function BodyIn(o: Output, k: Key): Option<Node> {
    var defs := if k.StdLet? then o.globals else o.fns;
    if Symbol(k) in defs then Some(defs[Symbol(k)].body) else None
  }

  ghost predicate AllBodiesLinked(p: Program, items: set<Key>, o: Output) {
    forall k :: k in items && k in p.defs ==>
      BodyIn(o, k).Some? && BodyLinked(EmitTables(p, k), o, BodyIn(o, k).value, p.defs[k].body)
  }

  /** A call symbol of an item is a function of the output or a runtime symbol. */
  lemma {:induction false} CallSymbolDefined(p: Program, impls: map<MethodKey, set<MethodKey>>, o: Output, k: Key, x: string)
    requires WellFormed(p) && RuntimeFits(p, o.runtime) && Holds(p, Items(p, impls), o)
    requires k in CallItems(p, impls) && k in p.defs && CallSymbol(KeyTables(p, k), Sites(Walked, p.defs[k].body), x)
    ensures x in o.fns || x in o.runtime
  {
    hide WellFormed, CallItems, Items, EmittedOf, Sites;
    var t, sites := KeyTables(p, k), Sites(Walked, p.defs[k].body);
    var s, target :| s in sites && !s.GlobalSite? && Lookup(t, s) == Some(target) && TargetSymbol(target) == x;
    match target
    case Def(m) =>
      assert CallRef(t, sites, m);
      CallRefReached(p, impls, k, m);
      ItemsSplit(p, impls);
      DefinedTarget(p, p.defs[k].scope, s, m);
    case Runtime(_) =>
  }

  /** A global read written by the global phase is a global of the output. */
  lemma {:induction false} ReadSymbolDefined(p: Program, impls: map<MethodKey, set<MethodKey>>, o: Output, k: Key, x: string)
    requires WellFormed(p) && Holds(p, Items(p, impls), o)
    requires k in Items(p, impls) && k in p.defs && ReadSymbol(KeyTables(p, k), Sites(Walked, BaseBody(p, Lets, k)), x)
    ensures x in o.globals
  {
    hide WellFormed, Items, EmittedOf, Sites, BaseBody;
    var t, sites := KeyTables(p, k), Sites(Walked, BaseBody(p, Lets, k));
    var y :| y in t.globals && GlobalSite(y) in sites && Symbol(t.globals[y]) == x;
    assert LetRef(t, sites, t.globals[y]);
    LetRefReached(p, impls, k, t.globals[y]);
    assert Lookup(t, GlobalSite(y)) == Some(Def(t.globals[y]));
    DefinedTarget(p, p.defs[k].scope, GlobalSite(y), t.globals[y]);
  }

  /** The two phases add up to the emitted body. */
  lemma {:induction false} EmittedInPhases(p: Program, k: Key)
    requires WellFormed(p) && k in p.defs
    ensures EmittedOf(p, k).body == Rewrite(GlobalsOnly(KeyTables(p, k)), Walked, BaseBody(p, Lets, k))
    ensures "" !in KeyTables(p, k).globals && SymbolsFresh(KeyTables(p, k))
  {
    hide WellFormed, TablesResolve, Rewrite;
    var t := KeyTables(p, k);
    ScopeResolves(p, p.defs[k].scope);
    ResolvesFresh(p, t);
    forall phase: Phase
      ensures SymbolsFresh(PhaseTables(phase, t))
    {
      PhaseResolves(p, phase, t);
      ResolvesFresh(p, PhaseTables(phase, t));
    }
    TwoPhases(t, p.defs[k].body);
  }

  /** Every body the injection puts out is linked. */
  lemma {:induction false} BodiesLinked(p: Program, impls: map<MethodKey, set<MethodKey>>, o: Output, k: Key)
    requires WellFormed(p) && RuntimeFits(p, o.runtime) && Holds(p, Items(p, impls), o)
    requires k in Items(p, impls) && k in p.defs && AllFresh(EmitTables(p, k))
    ensures BodyIn(o, k).Some? && BodyLinked(EmitTables(p, k), o, BodyIn(o, k).value, p.defs[k].body)
  {
    hide WellFormed, RuntimeFits, Holds, Items, CallItems, AllFresh, Unlinked, Missed, Rewrite, Sites, BaseBody, NameTold, CalleeTold;
    var t, body, source := KeyTables(p, k), EmittedOf(p, k).body, p.defs[k].body;
    BodyHeld(p, Items(p, impls), o, k);
    EmittedInPhases(p, k);
    forall x | BareSite(x) in Sites(Walked, body)
      ensures x in Symbols(o) || (BareSite(x) in Sites(Walked, source) && x !in EmitTables(p, k).bare)
    {
      NamesAfterLets(t, Walked, BaseBody(p, Lets, k), BareSite(x));
      CalleeLinked(p, impls, o, k, x);
    }
    forall x | GlobalSite(x) in Sites(Walked, body)
      ensures x in o.globals || (GlobalSite(x) in Sites(Walked, source) && x !in EmitTables(p, k).globals)
    {
      NamesAfterLets(t, Walked, BaseBody(p, Lets, k), GlobalSite(x));
      ReadLinked(p, impls, o, k, x);
    }
    LeftIff(EmitTables(p, k), Walked, source);
  }

  lemma {:induction false} BodyHeld(p: Program, items: set<Key>, o: Output, k: Key)
    requires Holds(p, items, o) && k in items && k in p.defs
    ensures BodyIn(o, k) == Some(EmittedOf(p, k).body)
    ensures EmittedOf(p, k).body == Rewrite(EmitTables(p, k), Walked, p.defs[k].body)
  {
  }

  lemma {:induction false} CalleeLinked(p: Program, impls: map<MethodKey, set<MethodKey>>, o: Output, k: Key, x: string)
    requires WellFormed(p) && RuntimeFits(p, o.runtime) && Holds(p, Items(p, impls), o) && k in Items(p, impls) && k in p.defs
    requires SymbolsFresh(KeyTables(p, k)) && NameTold(KeyTables(p, k), Sites(Walked, BaseBody(p, Lets, k)), BareSite(x))
    ensures x in Symbols(o) || (BareSite(x) in Sites(Walked, p.defs[k].body) && x !in EmitTables(p, k).bare)
  {
    hide WellFormed, RuntimeFits, Holds, Items, CallItems, Rewrite, Sites, SymbolsFresh, ReadSymbol, CallSymbol;
    var t, source := KeyTables(p, k), p.defs[k].body;
    if ReadSymbol(t, Sites(Walked, BaseBody(p, Lets, k)), x) {
      ReadSymbolDefined(p, impls, o, k, x);
    } else if !k.StdLet? {
      ItemsSplit(p, impls);
      assert BaseBody(p, Lets, k) == AfterCalls(t, Walked, source);
      CalleesAfterCalls(t, Walked, source, x);
      if CallSymbol(t, Sites(Walked, source), x) {
        CallSymbolDefined(p, impls, o, k, x);
      }
    }
  }

  lemma {:induction false} ReadLinked(p: Program, impls: map<MethodKey, set<MethodKey>>, o: Output, k: Key, x: string)
    requires WellFormed(p) && Holds(p, Items(p, impls), o) && k in Items(p, impls) && k in p.defs
    requires NameTold(KeyTables(p, k), Sites(Walked, BaseBody(p, Lets, k)), GlobalSite(x))
    ensures x in o.globals || (GlobalSite(x) in Sites(Walked, p.defs[k].body) && x !in EmitTables(p, k).globals)
  {
    hide WellFormed, Holds, Items, CallItems, Rewrite, Sites, ReadSymbol;
    var t, source := KeyTables(p, k), p.defs[k].body;
    if ReadSymbol(t, Sites(Walked, BaseBody(p, Lets, k)), x) {
      ReadSymbolDefined(p, impls, o, k, x);
    } else if !k.StdLet? {
      assert BaseBody(p, Lets, k) == AfterCalls(t, Walked, source);
      ReadsAfterCalls(t, Walked, source, x);
    }
  }
}
