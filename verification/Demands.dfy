/**
 What injection pulls in, told on the registry and the user module alone: which declarations a node of a
 body names, that the items put out are the least set closed under naming, and what the emitted bodies
 call instead.
 */
module Demands {

  import opened Ir
  import opened Mangle
  import opened Link
  import opened LinkMeaning
  import opened Meaning
  import opened Passes
  import opened Places
  import opened Inject
  import opened Injected
  import opened Emission
  import opened EmittedBodies
  import opened Stdlib
  import opened Wrappers
  import Reachability

  // ---- What a node names ----

  /** A qualifier stands for a module with or without `std.` before it. */
  ghost predicate Qualifies(q: string, m: string) {
    q == "std." + m || (q == m && !("std." <= m))
  }

  /**
   The declared function that a callee names.  In a stdlib body that is a function of the same module by
   its name, or of any module but `error` by a qualified name; in a user body only the module's own name
   qualifies.
   */
  ghost predicate CalleeNames(reg: Registry, scope: Scope, c: Node, m: string, f: string) {
    && m != "" && f != "" && (m, f) in reg.fns
    && match scope
       case Std(own) =>
         || (c.Ident? && c.name == f && m == own)
         || (c.Field? && c.x.Ident? && c.name == f && m != "error" && Qualifies(c.x.name, m))
       case User => c.Field? && c.x.Ident? && c.name == f && c.x.name == m
  }

  /** A call of a declared function; in a user body a method call on an identifier is read as one. */
  ghost predicate FnNamed(reg: Registry, scope: Scope, x: Node, m: string, f: string) {
    || (x.Call? && CalleeNames(reg, scope, x.callee, m, f))
    || (scope.User? && ShowsReceiver(x, m, f) && (m, f) in reg.fns)
  }

  ghost predicate Declared(reg: Registry, k: MethodKey) {
    k in reg.methods && reg.methods[k].body.Some? && k.owner != "" && k.typeName != "" && k.name != ""
  }

  /** A method call names the method of its receiver's type; on an interface also those of that name on the module's concrete types. */
  ghost predicate MethodNamed(reg: Registry, x: Node, k: MethodKey) {
    && x.MethodCall? && x.name == k.name && Declared(reg, k)
    && ReceiverOwner(x.recv.ty).Some?
    && var (m, ty) := ReceiverOwner(x.recv.ty).value;
    && k.owner == m
    && (k.typeName == ty
        || (MethodKey(m, ty, x.name) in reg.methods && (m, ty) in reg.interfaces && (m, k.typeName) !in reg.interfaces))
  }

  /** The node calls for the item: a declaration with a body that it names. */
  ghost predicate CallsFor(reg: Registry, scope: Scope, x: Node, d: Key) {
    match d
    case StdFn(m, f) => FnNamed(reg, scope, x, m, f) && reg.fns[(m, f)].body.Some?
    case StdMethod(k) => MethodNamed(reg, x, k)
    case _ => false
  }

  // ---- The scans demand what nodes call for ----

  /** What a node gives a call scan to look up. */
  ghost predicate Offers(reg: Registry, scope: Scope, x: Node, s: Site) {
    || (!s.GlobalSite? && Shows(x, s))
    || (s.MethodSite? && exists k :: k in Impls(reg) && Shows(x, MethodSite(k)) && s.key in Impls(reg)[k])
    || (s.QualSite? && scope.User? && ShowsReceiver(x, s.qualifier, s.name))
  }

  lemma {:induction false} OffersFound(reg: Registry, scope: Scope, n: Node, at: Slot, x: Node, s: Site)
    requires Sits(Walked, n, at, x) && Offers(reg, scope, x, s)
    ensures s in PhaseSites(Impls(reg), Calls, scope.User?, n)
  {
    hide Impls, Sites, ReceiverSites, Shows, Sits, ShowsReceiver;
    if !s.GlobalSite? && Shows(x, s) {
      SiteFound(Walked, n, at, x, s);
    } else if s.QualSite? && scope.User? && ShowsReceiver(x, s.qualifier, s.name) {
      ReceiverFound(Walked, n, at, x, s.qualifier, s.name);
    } else {
      var k :| k in Impls(reg) && Shows(x, MethodSite(k)) && s.key in Impls(reg)[k];
      SiteFound(Walked, n, at, x, MethodSite(k));
      assert s == MethodSite(s.key);
    }
  }

  lemma {:induction false} FoundOffers(reg: Registry, scope: Scope, n: Node, s: Site) returns (at: Slot, x: Node)
    requires s in PhaseSites(Impls(reg), Calls, scope.User?, n)
    ensures Sits(Walked, n, at, x) && Offers(reg, scope, x, s)
  {
    hide Impls, Sites, ReceiverSites, Shows, Sits, ShowsReceiver;
    if s in Sites(Walked, n) {
      at, x := SiteSits(Walked, n, s);
    } else if s.QualSite? && s in ReceiverSites(Walked, n) {
      at, x := ReceiverSits(Walked, n, s);
    } else {
      var k :| k in Impls(reg) && MethodSite(k) in Sites(Walked, n) && s.MethodSite? && s.key in Impls(reg)[k];
      at, x := SiteSits(Walked, n, MethodSite(k));
    }
  }

  lemma {:induction false} BareLookup(reg: Registry, own: string, f: string)
    ensures Lookup(PhaseTables(Calls, StdTables(reg, own)), BareSite(f)) ==
      if own != "" && f != "" && (own, f) in reg.fns then Some(FnTarget((own, f), reg.fns[(own, f)])) else None
  {
    hide QualifiedTable, BodiedMethods;
    if own != "" && f != "" && (own, f) in reg.fns {
      assert (own, f).1 == f;
    }
  }

  lemma {:induction false} QualLookup(reg: Registry, own: string, q: string, f: string)
    ensures Lookup(PhaseTables(Calls, StdTables(reg, own)), QualSite(q, f)) ==
      if Callable(reg, (q, f)) then Some(FnTarget((QualifierModule(q), f), reg.fns[(QualifierModule(q), f)])) else None
  {
    QualifiedTableIff(reg, (q, f));
  }

  lemma {:induction false} QualifiesIff(q: string, m: string)
    ensures Qualifies(q, m) <==> QualifierModule(q) == m
  {
    if "std." <= q {
      assert q == "std." + q[4..];
    }
    assert ("std." + m)[4..] == m;
  }

  lemma {:induction false} UserLookup(reg: Registry, user: UserModule, q: string, f: string)
    ensures Lookup(PhaseTables(Calls, UserTables(reg, user)), QualSite(q, f)) ==
      if q != "" && f != "" && (q, f) in reg.fns && reg.fns[(q, f)].body.Some? then Some(Def(StdFn(q, f))) else None
  {
    hide BodiedMethods;
  }

  lemma {:induction false} MethodLookup(reg: Registry, user: UserModule, scope: Scope, k: MethodKey)
    ensures Lookup(PhaseTables(Calls, TablesOf(reg, user, scope)), MethodSite(k)) == if Declared(reg, k) then Some(Def(StdMethod(k))) else None
  {
  }

  /** What a node offers resolves to the item exactly if the node calls for it. */
  lemma {:induction false} OffersIff(reg: Registry, user: UserModule, scope: Scope, x: Node, d: Key)
    ensures CallsFor(reg, scope, x, d) <==>
      exists s :: Offers(reg, scope, x, s) && Lookup(PhaseTables(Calls, TablesOf(reg, user, scope)), s) == Some(Def(d))
  {
    hide PhaseTables, StdTables, UserTables, Lookup, Impls, Declared;
    forall s | Offers(reg, scope, x, s) && Lookup(PhaseTables(Calls, TablesOf(reg, user, scope)), s) == Some(Def(d))
      ensures CallsFor(reg, scope, x, d)
    {
      OfferCalls(reg, user, scope, x, s, d);
    }
    if CallsFor(reg, scope, x, d) {
      var s := CallOffers(reg, user, scope, x, d);
    }
  }

  lemma {:induction false} OfferCalls(reg: Registry, user: UserModule, scope: Scope, x: Node, s: Site, d: Key)
    requires Offers(reg, scope, x, s) && Lookup(PhaseTables(Calls, TablesOf(reg, user, scope)), s) == Some(Def(d))
    ensures CallsFor(reg, scope, x, d)
  {
    hide PhaseTables, StdTables, UserTables, Declared;
    match s
    case BareSite(f) =>
      if scope.Std? {
        BareLookup(reg, scope.owner, f);
      } else {
        UserBare(reg, user, f);
      }
    case QualSite(q, f) =>
      if scope.Std? {
        QualLookup(reg, scope.owner, q, f);
        QualifiesIff(q, QualifierModule(q));
      } else {
        UserLookup(reg, user, q, f);
      }
    case MethodSite(k) =>
      MethodLookup(reg, user, scope, k);
    case GlobalSite(_) =>
  }

  lemma {:induction false} UserBare(reg: Registry, user: UserModule, f: string)
    ensures Lookup(PhaseTables(Calls, UserTables(reg, user)), BareSite(f)) == None
  {
  }

  lemma {:induction false} CallOffers(reg: Registry, user: UserModule, scope: Scope, x: Node, d: Key) returns (s: Site)
    requires CallsFor(reg, scope, x, d)
    ensures Offers(reg, scope, x, s) && Lookup(PhaseTables(Calls, TablesOf(reg, user, scope)), s) == Some(Def(d))
  {
    hide PhaseTables, StdTables, UserTables;
    match d
    case StdFn(m, f) =>
      if scope.User? {
        s := QualSite(m, f);
        UserLookup(reg, user, m, f);
      } else if x.callee.Ident? {
        s := BareSite(f);
        BareLookup(reg, m, f);
      } else {
        s := QualSite(x.callee.x.name, f);
        QualLookup(reg, scope.owner, x.callee.x.name, f);
        QualifiesIff(x.callee.x.name, m);
      }
    case StdMethod(k) =>
      s := MethodSite(k);
      MethodLookup(reg, user, scope, k);
      var (m, ty) := ReceiverOwner(x.recv.ty).value;
      if k.typeName != ty {
        var i := MethodKey(m, ty, x.name);
        assert Shows(x, MethodSite(i)) && i in Impls(reg) && k in Impls(reg)[i];
      }
  }

  ghost function BodyOf(reg: Registry, user: UserModule, k: Key): Node
    requires k in Keys(reg, user)
  {
    CodeOf(reg, user, k).body
  }

  ghost function ScopeOf(k: Key): Scope {
    match k
    case StdFn(m, _) => Std(m)
    case StdMethod(mk) => Std(mk.owner)
    case StdLet(m, _) => Std(m)
    case UserFn(_) => User
  }

  /** A node of the item's body calls for `d`. */
  ghost predicate BodyCallsFor(reg: Registry, user: UserModule, k: Key, d: Key)
    requires k in Keys(reg, user)
  {
    SomeCallsFor(reg, ScopeOf(k), BodyOf(reg, user, k), d)
  }

  ghost predicate SomeCallsFor(reg: Registry, scope: Scope, n: Node, d: Key) {
    exists at, x :: Sits(Walked, n, at, x) && CallsFor(reg, scope, x, d)
  }

  lemma {:induction false} TablesAt(reg: Registry, user: UserModule, k: Key)
    requires k in Keys(reg, user)
    ensures var p := ProgramOf(reg, user);
      && k in p.defs && p.defs[k].scope == ScopeOf(k) && p.defs[k].body == BodyOf(reg, user, k)
      && KeyTables(p, k) == TablesOf(reg, user, ScopeOf(k))
  {
    hide ProgramOf, Keys, TablesOf, CodeOf, Modules;
    DefAt(reg, user, k);
    CodeScope(reg, user, k);
    ScopeHas(reg, user, ScopeOf(k));
  }

  lemma {:induction false} DefAt(reg: Registry, user: UserModule, k: Key)
    requires k in Keys(reg, user)
    ensures var p := ProgramOf(reg, user); k in p.defs && p.defs[k] == CodeOf(reg, user, k)
  {
    hide Keys, TablesOf, Implementers, Modules, CodeOf;
  }

  lemma {:induction false} CodeScope(reg: Registry, user: UserModule, k: Key)
    requires k in Keys(reg, user)
    ensures CodeOf(reg, user, k).scope == ScopeOf(k) && InScope(reg, ScopeOf(k))
  {
    hide TypeGenerics;
  }

  /** The user's module, or a stdlib module that declares something. */
  ghost predicate InScope(reg: Registry, scope: Scope) {
    scope.User? || scope.owner in Modules(reg)
  }

  lemma {:induction false} ScopeHas(reg: Registry, user: UserModule, scope: Scope)
    requires InScope(reg, scope)
    ensures ScopeTables(ProgramOf(reg, user), scope) == TablesOf(reg, user, scope)
  {
    hide CodeOf, Keys, Implementers, TablesOf, Modules;
  }

  /** The call phase demands of a body exactly what its nodes call for. */
  lemma {:induction false} CallDemandIff(reg: Registry, user: UserModule, k: Key, d: Key)
    requires k in Keys(reg, user)
    ensures var succ := JobOf(ProgramOf(reg, user), Impls(reg), Calls).succ; k in succ && (d in succ[k] <==> BodyCallsFor(reg, user, k, d))
  {
    hide PhaseSites, PhaseTables, Resolved, SomeCallsFor, ProgramOf, Keys, CodeOf, Impls, TablesOf;
    TablesAt(reg, user, k);
    SomeCallsIff(reg, user, ScopeOf(k), BodyOf(reg, user, k), d);
    assert JobOf(ProgramOf(reg, user), Impls(reg), Calls).succ[k] ==
      Resolved(PhaseTables(Calls, TablesOf(reg, user, ScopeOf(k))), PhaseSites(Impls(reg), Calls, k.UserFn?, BodyOf(reg, user, k)));
  }

  lemma {:induction false} SomeCallsIff(reg: Registry, user: UserModule, scope: Scope, n: Node, d: Key)
    ensures d in Resolved(PhaseTables(Calls, TablesOf(reg, user, scope)), PhaseSites(Impls(reg), Calls, scope.User?, n)) <==>
      SomeCallsFor(reg, scope, n, d)
  {
    hide PhaseSites, PhaseTables, Offers, CallsFor, Lookup, Impls, Sits, TablesOf;
    var sites, t := PhaseSites(Impls(reg), Calls, scope.User?, n), PhaseTables(Calls, TablesOf(reg, user, scope));
    if d in Resolved(t, sites) {
      var s :| s in sites && Lookup(t, s) == Some(Def(d));
      var at, x := FoundOffers(reg, scope, n, s);
      OffersIff(reg, user, scope, x, d);
      assert Sits(Walked, n, at, x) && CallsFor(reg, scope, x, d);
    }
    if SomeCallsFor(reg, scope, n, d) {
      var at, x :| Sits(Walked, n, at, x) && CallsFor(reg, scope, x, d);
      OffersIff(reg, user, scope, x, d);
      var s :| Offers(reg, scope, x, s) && Lookup(t, s) == Some(Def(d));
      OffersFound(reg, scope, n, at, x, s);
      assert s in sites;
    }
  }

  // ---- Reads of globals, found after the calls were rewritten ----

  ghost predicate NamesSome(reg: Registry, scope: Scope, c: Node) {
    exists m, f :: CalleeNames(reg, scope, c, m, f)
  }

  /** The global is read in the walked part, other than as the callee or qualifier of a call that names a function. */
  ghost predicate ReadIn(reg: Registry, scope: Scope, slot: Slot, n: Node, g: string)
    decreases n
  {
    slot != Skipped && match n
      case Ident(k, name, _) => k == Global && name == g
      case Field(y, _, _) => ReadIn(reg, scope, Spliced, y, g)
      case Call(callee, _, _, args, _) =>
        (!NamesSome(reg, scope, callee) && ReadIn(reg, scope, Spliced, callee, g)) || AnyReadIn(reg, scope, Spliced, args, g)
      case MethodCall(recv, _, _, _, args, _) => ReadIn(reg, scope, Spliced, recv, g) || AnyReadIn(reg, scope, Spliced, args, g)
      case Shape(tag, _, kids, _) => AnyReadIn(reg, scope, KidSlot(slot, tag), kids, g)
  }

  ghost predicate AnyReadIn(reg: Registry, scope: Scope, slot: Slot, ns: seq<Node>, g: string)
    decreases ns
  {
    ns != [] && (ReadIn(reg, scope, slot, ns[0], g) || AnyReadIn(reg, scope, slot, ns[1..], g))
  }

  /** The rewriters replace exactly the callees that name a declared function. */
  lemma {:induction false} SpelledIff(reg: Registry, own: string, c: Node)
    ensures SpelledTarget(PhaseTables(Calls, StdTables(reg, own)), c).Some? <==> NamesSome(reg, Std(own), c)
  {
    hide PhaseTables, StdTables;
    var t := PhaseTables(Calls, StdTables(reg, own));
    if c.Ident? {
      BareLookup(reg, own, c.name);
      assert Lookup(t, BareSite(c.name)).Some? ==> CalleeNames(reg, Std(own), c, own, c.name);
    } else if c.Field? && c.x.Ident? {
      QualLookup(reg, own, c.x.name, c.name);
      QualifiesIff(c.x.name, QualifierModule(c.x.name));
      assert Lookup(t, QualSite(c.x.name, c.name)).Some? ==> CalleeNames(reg, Std(own), c, QualifierModule(c.x.name), c.name);
      forall m, f | CalleeNames(reg, Std(own), c, m, f)
        ensures Callable(reg, (c.x.name, c.name))
      {
        QualifiesIff(c.x.name, m);
      }
    }
  }

  /** After the calls were rewritten the scan finds exactly the reads. */
  lemma {:induction false} ReadFoundIff(reg: Registry, own: string, slot: Slot, n: Node, g: string)
    requires g != ""
    ensures GlobalSite(g) in Sites(slot, AfterCalls(StdTables(reg, own), slot, n)) <==> ReadIn(reg, Std(own), slot, n, g)
    decreases n
  {
    hide StdTables, PhaseTables, NamesSome, SpelledTarget, FreeCall;
    var t := PhaseTables(Calls, StdTables(reg, own));
    if slot != Skipped {
      match n
      case Ident(_, _, _) => NoLets(StdTables(reg, own));
      case Field(y, _, _) => ReadFoundIff(reg, own, Spliced, y, g);
      case Call(callee, _, _, args, _) =>
        SpelledIff(reg, own, callee);
        ReadFoundIff(reg, own, Spliced, callee, g);
        AnyReadFoundIff(reg, own, Spliced, args, g);
        CalleeNoRead(if SpelledTarget(t, callee).Some? then Ident(Fn, TargetSymbol(SpelledTarget(t, callee).value), callee.ty) else Rewrite(t, Spliced, callee), g);
      case MethodCall(recv, _, _, _, args, _) =>
        ReadFoundIff(reg, own, Spliced, recv, g);
        AnyReadFoundIff(reg, own, Spliced, args, g);
        FreeCallReads(t, slot, n, g);
      case Shape(tag, _, kids, _) => AnyReadFoundIff(reg, own, KidSlot(slot, tag), kids, g);
    }
  }

  lemma {:induction false} NoLets(t: Tables)
    ensures PhaseTables(Calls, t).globals == map[]
  {
  }

  lemma {:induction false} CalleeNoRead(callee: Node, g: string)
    ensures GlobalSite(g) !in CalleeSites(callee)
    ensures callee.Ident? && callee.kind == Fn ==> GlobalSite(g) !in Sites(Spliced, callee)
  {
  }

  lemma {:induction false} FreeCallReads(t: Tables, slot: Slot, n: Node, g: string)
    requires n.MethodCall? && slot != Skipped
    ensures GlobalSite(g) in Sites(slot, Rewrite(t, slot, n)) <==>
      GlobalSite(g) in Sites(Spliced, Rewrite(t, Spliced, n.recv)) || GlobalSite(g) in SitesAll(Spliced, RewriteAll(t, Spliced, n.args))
  {
    var recv', args' := Rewrite(t, Spliced, n.recv), RewriteAll(t, Spliced, n.args);
    assert ([recv'] + args')[1..] == args';
  }

  lemma {:induction false} AnyReadFoundIff(reg: Registry, own: string, slot: Slot, ns: seq<Node>, g: string)
    requires g != ""
    ensures GlobalSite(g) in SitesAll(slot, AllAfterCalls(StdTables(reg, own), slot, ns)) <==> AnyReadIn(reg, Std(own), slot, ns, g)
    decreases ns
  {
    hide StdTables, PhaseTables;
    if ns != [] {
      ReadFoundIff(reg, own, slot, ns[0], g);
      AnyReadFoundIff(reg, own, slot, ns[1..], g);
      var ns' := AllAfterCalls(StdTables(reg, own), slot, ns);
      assert ns'[1..] == AllAfterCalls(StdTables(reg, own), slot, ns[1..]);
    }
  }

  /** The body of a stdlib item reads the global `g`; the calls in initialisers are not rewritten. */
  ghost predicate BodyReads(reg: Registry, user: UserModule, k: Key, g: string)
    requires k in Keys(reg, user)
  {
    if k.StdLet? then Shown(Walked, BodyOf(reg, user, k), GlobalSite(g))
    else ReadIn(reg, ScopeOf(k), Walked, BodyOf(reg, user, k), g)
  }

  /** It reads a declared global of its own module. */
  ghost predicate BodyReadsFor(reg: Registry, user: UserModule, k: Key, d: Key)
    requires k in Keys(reg, user)
  {
    && d.StdLet? && ScopeOf(k) == Std(d.owner) && d.owner != "" && d.name != "" && (d.owner, d.name) in reg.lets
    && BodyReads(reg, user, k, d.name)
  }

  lemma {:induction false} LetLookup(reg: Registry, user: UserModule, scope: Scope, s: Site, d: Key)
    ensures Lookup(PhaseTables(Lets, TablesOf(reg, user, scope)), s) == Some(Def(d)) <==>
      && s.GlobalSite? && d.StdLet? && d.name == s.name && scope == Std(d.owner) && d.owner != "" && d.name != "" && (d.owner, d.name) in reg.lets
  {
    hide QualifiedTable, BodiedMethods;
    if scope.Std? && s.GlobalSite? && (scope.owner, s.name) in reg.lets {
      assert (scope.owner, s.name).1 == s.name;
    }
  }

  lemma {:induction false} LetSites(reg: Registry, user: UserModule, k: Key, g: string)
    requires k in Keys(reg, user) && g != "" && ScopeOf(k).Std?
    ensures GlobalSite(g) in Sites(Walked, BaseBody(ProgramOf(reg, user), Lets, k)) <==> BodyReads(reg, user, k, g)
  {
    hide ProgramOf, Keys, CodeOf, StdTables, Shown, Sites, PhaseTables;
    TablesAt(reg, user, k);
    var n := BodyOf(reg, user, k);
    if k.StdLet? {
      assert BaseBody(ProgramOf(reg, user), Lets, k) == n;
      SitesIff(Walked, n, GlobalSite(g));
    } else {
      ReadFoundIff(reg, ScopeOf(k).owner, Walked, n, g);
    }
  }

  lemma {:induction false} LetPhaseSites(impls: map<MethodKey, set<MethodKey>>, is_user: bool, n: Node, s: Site)
    ensures s in PhaseSites(impls, Lets, is_user, n) <==> s.GlobalSite? && s in Sites(Walked, n)
  {
  }

  /** The global phase demands of a body exactly the declared globals of its module that it reads. */
  lemma {:induction false} LetDemandIff(reg: Registry, user: UserModule, k: Key, d: Key)
    requires k in Keys(reg, user)
    ensures var succ := JobOf(ProgramOf(reg, user), Impls(reg), Lets).succ; k in succ && (d in succ[k] <==> BodyReadsFor(reg, user, k, d))
  {
    hide PhaseSites, PhaseTables, Lookup, ProgramOf, Keys, CodeOf, Impls, TablesOf, BaseBody, BodyReads, Sites;
    TablesAt(reg, user, k);
    var p := ProgramOf(reg, user);
    var scope, base := ScopeOf(k), BaseBody(p, Lets, k);
    var sites, t := PhaseSites(Impls(reg), Lets, k.UserFn?, base), PhaseTables(Lets, TablesOf(reg, user, scope));
    assert JobOf(p, Impls(reg), Lets).succ[k] == Resolved(t, sites);
    if d in Resolved(t, sites) {
      var s :| s in sites && Lookup(t, s) == Some(Def(d));
      LetLookup(reg, user, scope, s, d);
      LetPhaseSites(Impls(reg), k.UserFn?, base, s);
      LetSites(reg, user, k, d.name);
    }
    if BodyReadsFor(reg, user, k, d) {
      LetLookup(reg, user, scope, GlobalSite(d.name), d);
      LetPhaseSites(Impls(reg), k.UserFn?, base, GlobalSite(d.name));
      LetSites(reg, user, k, d.name);
    }
  }

  // ---- The items ----

  /** The user's functions are in, whatever a function or method calls for, and whatever any item reads. */
  ghost predicate DemandsMet(reg: Registry, user: UserModule, items: set<Key>) {
    && (forall f :: f in user.fns ==> UserFn(f) in items)
    && (forall k, d :: k in items && k in Keys(reg, user) && !k.StdLet? && BodyCallsFor(reg, user, k, d) ==> d in items)
    && (forall k, d :: k in items && k in Keys(reg, user) && BodyReadsFor(reg, user, k, d) ==> d in items)
  }

  /** The items put out meet these demands, and every other set that does includes them. */
  lemma {:induction false} ItemsAreLeast(reg: Registry, user: UserModule)
    requires CleanNames(reg, user)
    ensures var items := Items(ProgramOf(reg, user), Impls(reg));
      && items <= Keys(reg, user) && DemandsMet(reg, user, items)
      && forall s :: DemandsMet(reg, user, s) ==> items <= s
  {
    hide CleanNames, WellFormed, ProgramOf, Keys, Impls, JobOf, BodyCallsFor, BodyReadsFor;
    ItemsMeet(reg, user);
    forall s | DemandsMet(reg, user, s)
      ensures Items(ProgramOf(reg, user), Impls(reg)) <= s
    {
      ItemsInside(reg, user, s);
    }
  }

  lemma {:induction false} KeysOf(reg: Registry, user: UserModule)
    ensures ProgramOf(reg, user).defs.Keys == Keys(reg, user)
    ensures UserKeys(ProgramOf(reg, user)) == set f | f in user.fns :: UserFn(f)
  {
    hide CodeOf, TablesOf, Implementers;
  }

  lemma {:induction false} ItemsMeet(reg: Registry, user: UserModule)
    requires CleanNames(reg, user)
    ensures var items := Items(ProgramOf(reg, user), Impls(reg)); items <= Keys(reg, user) && DemandsMet(reg, user, items)
  {
    hide CleanNames, WellFormed, ProgramOf, Keys, Impls, JobOf, BodyCallsFor, BodyReadsFor, Reachability.Closure;
    var p := ProgramOf(reg, user);
    var calls, lets := JobOf(p, Impls(reg), Calls).succ, JobOf(p, Impls(reg), Lets).succ;
    ProgramWellFormed(reg, user);
    KeysOf(reg, user);
    ItemsSplit(p, Impls(reg));
    JobKeys(p, Impls(reg), Calls);
    JobKeys(p, Impls(reg), Lets);
    JobInside(reg, user, Calls);
    JobInside(reg, user, Lets);
    forall k, d | k in Items(p, Impls(reg)) && !k.StdLet? && k in Keys(reg, user) && BodyCallsFor(reg, user, k, d)
      ensures d in Items(p, Impls(reg))
    {
      CallDemandIff(reg, user, k, d);
      Reachability.ClosureExtends(calls, UserKeys(p), k, d);
    }
    forall k, d | k in Items(p, Impls(reg)) && k in Keys(reg, user) && BodyReadsFor(reg, user, k, d)
      ensures d in Items(p, Impls(reg))
    {
      LetDemandIff(reg, user, k, d);
      Reachability.ClosureExtends(lets, CallItems(p, Impls(reg)), k, d);
    }
  }

  lemma {:induction false} JobInside(reg: Registry, user: UserModule, phase: Phase)
    requires CleanNames(reg, user)
    ensures var succ := JobOf(ProgramOf(reg, user), Impls(reg), phase).succ; forall k :: k in succ ==> succ[k] <= succ.Keys
  {
    hide CleanNames, ProgramOf, Impls, WellFormed, JobOf;
    ProgramWellFormed(reg, user);
    JobOfFits(ProgramOf(reg, user), Impls(reg), phase);
  }

  lemma {:induction false} ItemsInside(reg: Registry, user: UserModule, s: set<Key>)
    requires CleanNames(reg, user) && DemandsMet(reg, user, s)
    ensures Items(ProgramOf(reg, user), Impls(reg)) <= s
  {
    hide CleanNames, WellFormed, ProgramOf, Keys, Impls, JobOf, BodyCallsFor, BodyReadsFor, Reachability.Closure;
    var p := ProgramOf(reg, user);
    var calls, lets := JobOf(p, Impls(reg), Calls).succ, JobOf(p, Impls(reg), Lets).succ;
    ProgramWellFormed(reg, user);
    KeysOf(reg, user);
    CallItemsNoLets(p, Impls(reg));
    JobKeys(p, Impls(reg), Calls);
    JobKeys(p, Impls(reg), Lets);
    var s' := s * (set k | k in Keys(reg, user) && !k.StdLet?);
    forall k, d | k in s' && k in calls && d in calls[k] && d in calls
      ensures d in s'
    {
      CallDemandIff(reg, user, k, d);
      CallsAreCalls(reg, user, k, d);
    }
    assert Reachability.Closed(calls, s') && Reachability.Seeded(calls, UserKeys(p), s');
    Reachability.ClosureIsLeast(calls, UserKeys(p));
    assert CallItems(p, Impls(reg)) <= s';
    forall k, d | k in s && k in lets && d in lets[k] && d in lets
      ensures d in s
    {
      LetDemandIff(reg, user, k, d);
    }
    assert Reachability.Closed(lets, s) && Reachability.Seeded(lets, CallItems(p, Impls(reg)), s);
    Reachability.ClosureIsLeast(lets, CallItems(p, Impls(reg)));
  }

  lemma {:induction false} CallsAreCalls(reg: Registry, user: UserModule, k: Key, d: Key)
    requires k in Keys(reg, user) && BodyCallsFor(reg, user, k, d)
    ensures !d.StdLet?
  {
  }

  // ---- The output ----

  /** The output holds what injection puts out for the registry and the user module. */
  ghost predicate Injects(reg: Registry, user: UserModule, o: Output) {
    Holds(ProgramOf(reg, user), Items(ProgramOf(reg, user), Impls(reg)), o)
  }

  /** The emitted function with the declaration's generics and parameters. */
  ghost predicate EmitsFn(o: Output, sym: string, generics: seq<string>, params: seq<string>) {
    sym in o.fns && o.fns[sym].generics == generics && o.fns[sym].params == params
  }

  ghost predicate IsItem(reg: Registry, user: UserModule, k: Key) {
    k in Items(ProgramOf(reg, user), Impls(reg)) && k in Keys(reg, user)
  }

  lemma {:induction false} ItemHeld(reg: Registry, user: UserModule, o: Output, k: Key)
    requires Injects(reg, user, o) && IsItem(reg, user, k)
    ensures k in ProgramOf(reg, user).defs
    ensures if k.StdLet? then Symbol(k) in o.globals && o.globals[Symbol(k)] == EmittedOf(ProgramOf(reg, user), k)
      else Symbol(k) in o.fns && o.fns[Symbol(k)] == EmittedOf(ProgramOf(reg, user), k)
  {
    hide ProgramOf, Items, EmittedOf, Symbol, Keys;
  }

  lemma {:induction false} FnEmitted(reg: Registry, user: UserModule, o: Output, m: string, f: string)
    requires Injects(reg, user, o) && IsItem(reg, user, StdFn(m, f))
    ensures (m, f) in reg.fns && EmitsFn(o, StdlibSymbol(m, f), reg.fns[(m, f)].generics, reg.fns[(m, f)].params)
  {
    hide Items, Injects, Keys, Implementers, TablesOf, StdlibSymbol;
    ItemHeld(reg, user, o, StdFn(m, f));
    assert (m, f) in reg.fns by { KeyDeclared(reg, user, StdFn(m, f)); }
  }

  lemma {:induction false} MethodEmitted(reg: Registry, user: UserModule, o: Output, k: MethodKey)
    requires Injects(reg, user, o) && IsItem(reg, user, StdMethod(k))
    ensures Declared(reg, k)
    ensures EmitsFn(o, StdlibMethodSymbol(k.owner, k.typeName, k.name), TypeGenerics(reg, k) + reg.methods[k].generics, ["self"] + reg.methods[k].params)
  {
    hide Items, Injects, Keys, Implementers, TablesOf, StdlibMethodSymbol, TypeGenerics;
    ItemHeld(reg, user, o, StdMethod(k));
    KeyDeclared(reg, user, StdMethod(k));
  }

  lemma {:induction false} KeyDeclared(reg: Registry, user: UserModule, k: Key)
    requires k in Keys(reg, user)
    ensures match k
      case StdFn(m, f) => (m, f) in reg.fns && reg.fns[(m, f)].body.Some?
      case StdMethod(mk) => Declared(reg, mk)
      case StdLet(m, x) => (m, x) in reg.lets
      case UserFn(f) => f in user.fns
  {
  }

  /** Every user function is put out under its own name. */
  lemma {:induction false} UserFnEmitted(reg: Registry, user: UserModule, o: Output, f: string)
    requires CleanNames(reg, user) && Injects(reg, user, o) && f in user.fns
    ensures EmitsFn(o, f, user.fns[f].generics, user.fns[f].params)
  {
    hide CleanNames, Items, Injects, Implementers, TablesOf;
    ItemsAreLeast(reg, user);
    ItemHeld(reg, user, o, UserFn(f));
  }

  /** A call in the emitted body stands for a call in the source: it names `sym`, with the same type arguments, keywords and number of arguments. */
  ghost predicate CallsInstead(body: Node, x: Node, sym: string)
    requires x.Call?
  {
    exists at', x' :: Sits(Walked, body, at', x') && x'.Call? && x'.callee == Ident(Fn, sym, x.callee.ty)
      && x'.typeArgs == x.typeArgs && x'.argNames == x.argNames && |x'.args| == |x.args| && x'.ty == x.ty
  }

  lemma {:induction false} NamedTarget(reg: Registry, user: UserModule, scope: Scope, c: Node, m: string, f: string)
    requires CalleeNames(reg, scope, c, m, f) && (scope.Std? || reg.fns[(m, f)].body.Some?)
    ensures SpelledTarget(TablesOf(reg, user, scope), c) == Some(FnTarget((m, f), reg.fns[(m, f)]))
  {
    hide BodiedMethods, QualifiedTable;
    if scope.Std? {
      if c.Ident? {
        BareLookup(reg, scope.owner, c.name);
      } else {
        QualLookup(reg, scope.owner, c.x.name, f);
        QualifiesIff(c.x.name, m);
      }
    } else {
      UserLookup(reg, user, m, f);
    }
  }

  /**
   A call of a declared function that sits in an item's body: a function with a body is in the output and
   is called under its symbol; one without is called under its runtime symbol.
   */
  lemma {:induction false} CallInjected(reg: Registry, user: UserModule, o: Output, k: Key, at: Slot, x: Node, m: string, f: string)
    requires CleanNames(reg, user) && Injects(reg, user, o) && IsItem(reg, user, k) && !k.StdLet?
    requires Sits(Walked, BodyOf(reg, user, k), at, x) && x.Call? && CalleeNames(reg, ScopeOf(k), x.callee, m, f)
    ensures Symbol(k) in o.fns
    ensures reg.fns[(m, f)].body.Some? ==>
      && EmitsFn(o, StdlibSymbol(m, f), reg.fns[(m, f)].generics, reg.fns[(m, f)].params)
      && CallsInstead(o.fns[Symbol(k)].body, x, StdlibSymbol(m, f))
    ensures reg.fns[(m, f)].body.None? && ScopeOf(k).Std? ==> CallsInstead(o.fns[Symbol(k)].body, x, CanonicalSymbol(m, f))
  {
    hide CleanNames, Injects, Items, Keys, CodeOf, TablesOf, StdlibSymbol, StdlibMethodSymbol, CanonicalSymbol, CalleeNames, IsItem, ProgramOf,
         CallsInstead, Sits;
    ItemInKeys(reg, user, k);
    ItemHeld(reg, user, o, k);
    assert (m, f) in reg.fns by { NamedIsFn(reg, ScopeOf(k), x.callee, m, f); }
    if reg.fns[(m, f)].body.Some? {
      FnDemanded(reg, user, k, at, x, m, f);
      FnEmitted(reg, user, o, m, f);
    }
    if reg.fns[(m, f)].body.Some? || ScopeOf(k).Std? {
      CallReplaced(reg, user, k, at, x, m, f);
    }
  }

  lemma {:induction false} NamedIsFn(reg: Registry, scope: Scope, c: Node, m: string, f: string)
    requires CalleeNames(reg, scope, c, m, f)
    ensures (m, f) in reg.fns
  {
  }

  lemma {:induction false} CallReplaced(reg: Registry, user: UserModule, k: Key, at: Slot, x: Node, m: string, f: string)
    requires k in Keys(reg, user) && !k.StdLet? && k in ProgramOf(reg, user).defs
    requires Sits(Walked, BodyOf(reg, user, k), at, x) && x.Call? && CalleeNames(reg, ScopeOf(k), x.callee, m, f)
    requires reg.fns[(m, f)].body.Some? || ScopeOf(k).Std?
    ensures CallsInstead(EmittedOf(ProgramOf(reg, user), k).body, x, TargetSymbol(FnTarget((m, f), reg.fns[(m, f)])))
  {
    hide Keys, CodeOf, TablesOf, StdlibSymbol, StdlibMethodSymbol, CanonicalSymbol, CalleeNames, FreeGenerics, FreeParams, ProgramOf, FnTarget, TargetSymbol, Sits;
    assert (m, f) in reg.fns by { NamedIsFn(reg, ScopeOf(k), x.callee, m, f); }
    TablesAt(reg, user, k);
    var t, body := TablesOf(reg, user, ScopeOf(k)), BodyOf(reg, user, k);
    NamedTarget(reg, user, ScopeOf(k), x.callee, m, f);
    SitsWalked(Walked, body, at, x);
    RewrittenSits(t, Walked, body, at, x);
    var at' :| Sits(Walked, Rewrite(t, Walked, body), at', Rewrite(t, at, x));
  }

  lemma {:induction false} ItemInKeys(reg: Registry, user: UserModule, k: Key)
    requires IsItem(reg, user, k)
    ensures k in Keys(reg, user) && k in Items(ProgramOf(reg, user), Impls(reg))
  {
  }

  lemma {:induction false} FnDemanded(reg: Registry, user: UserModule, k: Key, at: Slot, x: Node, m: string, f: string)
    requires CleanNames(reg, user) && IsItem(reg, user, k) && !k.StdLet?
    requires Sits(Walked, BodyOf(reg, user, k), at, x) && FnNamed(reg, ScopeOf(k), x, m, f) && reg.fns[(m, f)].body.Some?
    ensures IsItem(reg, user, StdFn(m, f))
  {
    hide CleanNames, Items, Keys, CodeOf, FnNamed, ProgramOf;
    ItemsAreLeast(reg, user);
    assert CallsFor(reg, ScopeOf(k), x, StdFn(m, f));
    assert BodyCallsFor(reg, user, k, StdFn(m, f));
  }

  /** A call of `sym` that stands for the method call: receiver first, and the receiver's type arguments before the call's. */
  ghost predicate Frees(x: Node, sym: string, x': Node)
    requires x.MethodCall?
  {
    && x'.Call? && x'.callee.Ident? && x'.callee.kind == Fn && x'.callee.name == sym
    && x'.typeArgs == OwnerArgs(x.recv.ty) + x.typeArgs && x'.argNames == [""] + x.argNames
    && TypesOf(x'.args) == [x.recv.ty] + TypesOf(x.args) && x'.callee.ty == FnType(TypesOf(x'.args), x.ty) && x'.ty == x.ty
  }

  ghost predicate FreelyCalled(body: Node, x: Node, sym: string)
    requires x.MethodCall?
  {
    exists at', x' :: Sits(Walked, body, at', x') && Frees(x, sym, x')
  }

  /**
   A method call that sits in an item's body: every method with a body that it names, those of the concrete
   types behind an interface included, is in the output; in a covered slot the call is made free.
   */
  lemma {:induction false} MethodInjected(reg: Registry, user: UserModule, o: Output, k: Key, at: Slot, x: Node, d: MethodKey)
    requires CleanNames(reg, user) && Injects(reg, user, o) && IsItem(reg, user, k) && !k.StdLet?
    requires Sits(Walked, BodyOf(reg, user, k), at, x) && MethodNamed(reg, x, d)
    ensures EmitsFn(o, StdlibMethodSymbol(d.owner, d.typeName, d.name), TypeGenerics(reg, d) + reg.methods[d].generics, ["self"] + reg.methods[d].params)
    ensures Symbol(k) in o.fns
    ensures at == Spliced && ReceiverOwner(x.recv.ty) == Some((d.owner, d.typeName)) ==>
      FreelyCalled(o.fns[Symbol(k)].body, x, StdlibMethodSymbol(d.owner, d.typeName, d.name))
  {
    hide CleanNames, Injects, Items, Keys, CodeOf, TablesOf, StdlibSymbol, StdlibMethodSymbol, TypeGenerics, IsItem, MethodNamed, ProgramOf,
         FreelyCalled, Sits, Frees;
    ItemInKeys(reg, user, k);
    MethodDemanded(reg, user, k, at, x, d);
    MethodEmitted(reg, user, o, d);
    ItemHeld(reg, user, o, k);
    NamedDeclared(reg, x, d);
    if at == Spliced && ReceiverOwner(x.recv.ty) == Some((d.owner, d.typeName)) {
      MethodReplaced(reg, user, k, x, d);
    }
  }

  lemma {:induction false} MethodReplaced(reg: Registry, user: UserModule, k: Key, x: Node, d: MethodKey)
    requires k in Keys(reg, user) && !k.StdLet? && k in ProgramOf(reg, user).defs
    requires Sits(Walked, BodyOf(reg, user, k), Spliced, x) && x.MethodCall? && x.name == d.name && d in BodiedMethods(reg)
    requires ReceiverOwner(x.recv.ty) == Some((d.owner, d.typeName)) && d.name != ""
    ensures FreelyCalled(EmittedOf(ProgramOf(reg, user), k).body, x, StdlibMethodSymbol(d.owner, d.typeName, d.name))
  {
    hide Keys, CodeOf, TablesOf, StdlibSymbol, StdlibMethodSymbol, FreeGenerics, FreeParams, ProgramOf, Sits, BodiedMethods, Frees;
    TablesAt(reg, user, k);
    var t, body := TablesOf(reg, user, ScopeOf(k)), BodyOf(reg, user, k);
    assert MethodTarget(t, x.recv.ty, x.name) == Some(d) by { MethodsOf(reg, user, ScopeOf(k)); }
    RewrittenSits(t, Walked, body, Spliced, x);
    var at' :| Sits(Walked, Rewrite(t, Walked, body), at', Rewrite(t, Spliced, x));
    MadeFree(t, x, d);
  }

  lemma {:induction false} MadeFree(t: Tables, x: Node, d: MethodKey)
    requires x.MethodCall? && MethodTarget(t, x.recv.ty, x.name) == Some(d)
    ensures Frees(x, StdlibMethodSymbol(d.owner, d.typeName, d.name), Rewrite(t, Spliced, x))
  {
    hide MethodTarget, OwnerArgs, StdlibMethodSymbol;
    var recv', args' := Rewrite(t, Spliced, x.recv), RewriteAll(t, Spliced, x.args);
    RewriteKeepsType(t, Spliced, x.recv);
    RewriteKeepsTypes(t, Spliced, x.args);
    assert TypesOf([recv'] + args') == [x.recv.ty] + TypesOf(x.args);
    assert Rewrite(t, Spliced, x) == FreeCall(d, recv', x.typeArgs, x.argNames, args', x.recv.ty, x.ty);
  }

  lemma {:induction false} RewriteKeepsTypes(t: Tables, slot: Slot, ns: seq<Node>)
    ensures TypesOf(RewriteAll(t, slot, ns)) == TypesOf(ns)
  {
    if ns != [] {
      hide Rewrite;
      RewriteKeepsType(t, slot, ns[0]);
      RewriteKeepsTypes(t, slot, ns[1..]);
      var ns' := RewriteAll(t, slot, ns);
      assert ns'[1..] == RewriteAll(t, slot, ns[1..]);
      forall i | 0 <= i < |ns|
        ensures ns'[i].ty == ns[i].ty
      {
        if i > 0 {
          assert TypesOf(ns'[1..])[i - 1] == TypesOf(ns[1..])[i - 1];
        }
      }
    }
  }

  lemma {:induction false} MethodsOf(reg: Registry, user: UserModule, scope: Scope)
    ensures TablesOf(reg, user, scope).methods == BodiedMethods(reg)
  {
  }

  lemma {:induction false} NamedDeclared(reg: Registry, x: Node, d: MethodKey)
    requires MethodNamed(reg, x, d)
    ensures x.MethodCall? && x.name == d.name && d.name != "" && Declared(reg, d) && d in BodiedMethods(reg)
  {
  }

  lemma {:induction false} MethodDemanded(reg: Registry, user: UserModule, k: Key, at: Slot, x: Node, d: MethodKey)
    requires CleanNames(reg, user) && IsItem(reg, user, k) && !k.StdLet?
    requires Sits(Walked, BodyOf(reg, user, k), at, x) && MethodNamed(reg, x, d)
    ensures IsItem(reg, user, StdMethod(d))
  {
    hide CleanNames, Items, Keys, CodeOf, MethodNamed, ProgramOf;
    ItemsAreLeast(reg, user);
    assert CallsFor(reg, ScopeOf(k), x, StdMethod(d));
    assert BodyCallsFor(reg, user, k, StdMethod(d));
  }

  /** A declared global that an item reads is in the output, and read under its symbol. */
  lemma {:induction false} ReadInjected(reg: Registry, user: UserModule, o: Output, k: Key, d: Key)
    requires CleanNames(reg, user) && Injects(reg, user, o) && IsItem(reg, user, k) && BodyReadsFor(reg, user, k, d)
    ensures StdlibSymbol(d.owner, d.name) in o.globals
    ensures BodyIn(o, k).Some? && Shown(Walked, BodyIn(o, k).value, GlobalSite(StdlibSymbol(d.owner, d.name)))
  {
    hide CleanNames, Injects, Items, Keys, CodeOf, TablesOf, StdlibSymbol, StdlibMethodSymbol, IsItem, FreeGenerics, FreeParams,
         BodyReads, BaseBody, ProgramOf, WellFormed, TablesResolve, SymbolsFresh;
    var p := ProgramOf(reg, user);
    ItemInKeys(reg, user, k);
    ItemsAreLeast(reg, user);
    ItemHeld(reg, user, o, k);
    assert IsItem(reg, user, d) by { ItemOf(reg, user, d); }
    ItemHeld(reg, user, o, d);
    TablesAt(reg, user, k);
    LetSites(reg, user, k, d.name);
    var t, base := KeyTables(p, k), BaseBody(p, Lets, k);
    var at, x := SiteSits(Walked, base, GlobalSite(d.name));
    SitsWalked(Walked, base, at, x);
    RewrittenSits(GlobalsOnly(t), Walked, base, at, x);
    ProgramWellFormed(reg, user);
    EmittedInPhases(p, k);
    LetLookup(reg, user, ScopeOf(k), GlobalSite(d.name), d);
    var x' := Rewrite(GlobalsOnly(t), at, x);
    assert x'.Ident? && x'.kind == Global && x'.name == StdlibSymbol(d.owner, d.name);
    assert StdlibSymbol(d.owner, d.name) != "" by { assert |StdlibSymbol(d.owner, d.name)| > 0 by { SymbolNonEmpty(d.owner, d.name); } }
    assert Shows(x', GlobalSite(StdlibSymbol(d.owner, d.name)));
  }

  lemma {:induction false} SymbolNonEmpty(m: string, x: string)
    ensures |StdlibSymbol(m, x)| > 0
  {
  }

  lemma {:induction false} ItemOf(reg: Registry, user: UserModule, d: Key)
    requires d in Items(ProgramOf(reg, user), Impls(reg)) && Items(ProgramOf(reg, user), Impls(reg)) <= Keys(reg, user)
    ensures IsItem(reg, user, d)
  {
  }
}
