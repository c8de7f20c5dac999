/**
 What the rewriting leaves behind, and how the injector's many small in-place passes over one body
 add up to a single rewriting.
 */
module Passes {

  import opened Ir
  import opened Link
  import opened LinkMeaning
  import opened Meaning
  import opened Wrappers

  // ---- What is left behind ----

  /** Some method call in the tree resolves. */
  ghost predicate HasMethod(t: Tables, n: Node)
    decreases n
  {
    match n
    case Ident(_, _, _) => false
    case Field(x, _, _) => HasMethod(t, x)
    case Call(callee, _, _, args, _) => HasMethod(t, callee) || AnyHasMethod(t, args)
    case MethodCall(recv, name, _, _, args, _) =>
      MethodTarget(t, recv.ty, name).Some? || HasMethod(t, recv) || AnyHasMethod(t, args)
    case Shape(_, _, kids, _) => AnyHasMethod(t, kids)
  }

  ghost predicate AnyHasMethod(t: Tables, ns: seq<Node>)
    decreases ns
  {
    ns != [] && (HasMethod(t, ns[0]) || AnyHasMethod(t, ns[1..]))
  }

  /** Some method call that resolves sits in a slot the splice visitor does not overwrite. */
  ghost predicate Uncovered(t: Tables, slot: Slot, n: Node)
    decreases n
  {
    match n
    case Ident(_, _, _) => false
    case Field(x, _, _) => Uncovered(t, ExprSlot(slot), x)
    case Call(callee, _, _, args, _) => Uncovered(t, ExprSlot(slot), callee) || AnyUncovered(t, ExprSlot(slot), args)
    case MethodCall(recv, name, _, _, args, _) =>
      || (MethodTarget(t, recv.ty, name).Some? && slot != Spliced)
      || Uncovered(t, ExprSlot(slot), recv) || AnyUncovered(t, ExprSlot(slot), args)
    case Shape(tag, _, kids, _) => AnyUncovered(t, KidSlot(slot, tag), kids)
  }

  ghost predicate AnyUncovered(t: Tables, slot: Slot, ns: seq<Node>)
    decreases ns
  {
    ns != [] && (Uncovered(t, slot, ns[0]) || AnyUncovered(t, slot, ns[1..]))
  }

  /** A method call that resolves is left exactly when one sat in an uncovered slot. */
  lemma {:induction false} MethodLeftIff(t: Tables, slot: Slot, n: Node)
    ensures HasMethod(t, Rewrite(t, slot, n)) <==> Uncovered(t, slot, n)
    decreases n
  {
    match n
    case Ident(_, _, _) =>
    case Field(x, _, _) => MethodLeftIff(t, ExprSlot(slot), x);
    case Call(callee, _, _, args, _) =>
      MethodLeftIff(t, ExprSlot(slot), callee);
      AnyMethodLeftIff(t, ExprSlot(slot), args);
      RewriteSkipped(t, args);
    case MethodCall(recv, name, typeArgs, argNames, args, ty) =>
      hide Uncovered, HasMethod, MethodTarget;
      MethodLeftIff(t, ExprSlot(slot), recv);
      AnyMethodLeftIff(t, ExprSlot(slot), args);
      CallLeftIff(t, slot, n);
    case Shape(tag, _, kids, _) =>
      AnyMethodLeftIff(t, KidSlot(slot, tag), kids);
      RewriteSkipped(t, kids);
  }

  lemma {:induction false} CallLeftIff(t: Tables, slot: Slot, n: Node)
    requires n.MethodCall?
    requires HasMethod(t, Rewrite(t, ExprSlot(slot), n.recv)) <==> Uncovered(t, ExprSlot(slot), n.recv)
    requires AnyHasMethod(t, RewriteAll(t, ExprSlot(slot), n.args)) <==> AnyUncovered(t, ExprSlot(slot), n.args)
    ensures HasMethod(t, Rewrite(t, slot, n)) <==> Uncovered(t, slot, n)
  {
    hide MethodTarget, Symbol, OwnerArgs, TypesOf;
    RewriteSkipped(t, n.args);
    RewriteKeepsType(t, ExprSlot(slot), n.recv);
    var recv', args' := Rewrite(t, Spliced, n.recv), RewriteAll(t, Spliced, n.args);
    assert ([recv'] + args')[1..] == args';
  }

  lemma {:induction false} AnyMethodLeftIff(t: Tables, slot: Slot, ns: seq<Node>)
    ensures AnyHasMethod(t, RewriteAll(t, slot, ns)) <==> AnyUncovered(t, slot, ns)
    decreases ns
  {
    if ns != [] {
      MethodLeftIff(t, slot, ns[0]);
      AnyMethodLeftIff(t, slot, ns[1..]);
      assert RewriteAll(t, slot, ns)[1..] == RewriteAll(t, slot, ns[1..]);
    }
  }

  /** A method call interpolated into a string literal stays a method call. */
  lemma {:induction false} InterpolationMissed()
    ensures
      var k := MethodKey("encoding", "Hex", "encode");
      var t := Tables(map[], map[], {k}, map[], map[]);
      var call := MethodCall(Ident(Local, "h", Named("encoding", "Hex", [], false)), "encode", [], [], [], OtherType("String"));
      var stmt := Shape(ExprStmt, "", [Shape(StringLit, "{}", [call], OtherType("String"))], OtherType("()"));
      MethodTarget(t, call.recv.ty, call.name) == Some(k) && Rewrite(t, Walked, stmt) == stmt
  {
    var k := MethodKey("encoding", "Hex", "encode");
    var t := Tables(map[], map[], {k}, map[], map[]);
    var h := Ident(Local, "h", Named("encoding", "Hex", [], false));
    var call := MethodCall(h, "encode", [], [], [], OtherType("String"));
    var lit := Shape(StringLit, "{}", [call], OtherType("String"));
    hide FreeCall, SpelledTarget, Rewrite, RewriteAll, MethodTarget;
    HexOwner(t);
    LeafCallStays(t, call);
    ShapeStays(t, Spliced, lit);
    ShapeStays(t, Walked, Shape(ExprStmt, "", [lit], OtherType("()")));
  }

  lemma {:induction false} HexOwner(t: Tables)
    requires t.methods == {MethodKey("encoding", "Hex", "encode")}
    ensures MethodTarget(t, Named("encoding", "Hex", [], false), "encode") == Some(MethodKey("encoding", "Hex", "encode"))
  {
  }

  lemma {:induction false} LeafCallStays(t: Tables, n: Node)
    requires n.MethodCall? && n.args == [] && n.recv.Ident? && n.recv.kind == Local
    ensures Rewrite(t, Walked, n) == n
  {
    hide FreeCall, MethodTarget;
    assert Rewrite(t, Spliced, n.recv) == n.recv;
  }

  lemma {:induction false} ShapeStays(t: Tables, slot: Slot, n: Node)
    requires slot != Skipped && n.Shape? && |n.kids| == 1 && Rewrite(t, KidSlot(slot, n.tag), n.kids[0]) == n.kids[0]
    ensures Rewrite(t, slot, n) == n
  {
    assert RewriteAll(t, KidSlot(slot, n.tag), n.kids[1..]) == [];
    assert n.kids == [n.kids[0]];
  }

  // ---- The in-place passes add up to one rewriting ----

  /** A place a pass looks up: by bare name, by qualified name, by method, or as a global read. */
  datatype Site =
    | BareSite(name: string)
    | QualSite(qualifier: string, name: string)
    | MethodSite(key: MethodKey)
    | GlobalSite(name: string)

  function CalleeSites(callee: Node): set<Site> {
    match callee
    case Ident(_, name, _) => if name == "" then {} else {BareSite(name)}
    case Field(Ident(_, q, _), name, _) => if q == "" || name == "" then {} else {QualSite(q, name)}
    case _ => {}
  }

  /** Everything the scanners find in the walked part of a tree. */
  function Sites(slot: Slot, n: Node): set<Site>
    decreases n
  {
    if slot == Skipped then {}
    else
      match n
      case Ident(k, name, _) => if k == Global && name != "" then {GlobalSite(name)} else {}
      case Field(x, _, _) => Sites(Spliced, x)
      case Call(callee, _, _, args, _) => CalleeSites(callee) + Sites(Spliced, callee) + SitesAll(Spliced, args)
      case MethodCall(recv, name, _, _, args, _) =>
        (match ReceiverOwner(recv.ty)
         case None => {}
         case Some((m, ty)) => if name == "" then {} else {MethodSite(MethodKey(m, ty, name))})
        + Sites(Spliced, recv) + SitesAll(Spliced, args)
      case Shape(tag, _, kids, _) => SitesAll(KidSlot(slot, tag), kids)
  }

  function SitesAll(slot: Slot, ns: seq<Node>): set<Site>
    decreases ns
  {
    if ns == [] then {} else Sites(slot, ns[0]) + SitesAll(slot, ns[1..])
  }

  /** Method calls on an identifier, read as calls qualified by it: the user module's scan takes both for the same. */
  function ReceiverSites(slot: Slot, n: Node): set<Site>
    decreases n
  {
    if slot == Skipped then {}
    else
      match n
      case Ident(_, _, _) => {}
      case Field(x, _, _) => ReceiverSites(Spliced, x)
      case Call(callee, _, _, args, _) => ReceiverSites(Spliced, callee) + ReceiverSitesAll(Spliced, args)
      case MethodCall(recv, name, _, _, args, _) =>
        (if recv.Ident? && recv.name != "" && name != "" then {QualSite(recv.name, name)} else {})
        + ReceiverSites(Spliced, recv) + ReceiverSitesAll(Spliced, args)
      case Shape(tag, _, kids, _) => ReceiverSitesAll(KidSlot(slot, tag), kids)
  }

  function ReceiverSitesAll(slot: Slot, ns: seq<Node>): set<Site>
    decreases ns
  {
    if ns == [] then {} else ReceiverSites(slot, ns[0]) + ReceiverSitesAll(slot, ns[1..])
  }

  /** The tables cut down to some sites. */
  function Restrict(t: Tables, sites: set<Site>): Tables {
    Tables(
      map x | x in t.bare && BareSite(x) in sites :: t.bare[x],
      map x | x in t.qual && QualSite(x.0, x.1) in sites :: t.qual[x],
      set k | k in t.methods && MethodSite(k) in sites,
      map x | x in t.globals && GlobalSite(x) in sites :: t.globals[x],
      map[])
  }

  /** No emitted symbol is itself a name in the tables. */
  ghost predicate SymbolsFresh(t: Tables) {
    && (forall x :: x in t.bare ==> TargetSymbol(t.bare[x]) !in t.bare)
    && (forall x :: x in t.qual ==> TargetSymbol(t.qual[x]) !in t.bare)
    && (forall k :: k in t.methods ==> Symbol(StdMethod(k)) !in t.bare)
    && (forall x :: x in t.globals ==> Symbol(t.globals[x]) !in t.globals)
    && "" !in t.bare && "" !in t.globals && (forall x :: x in t.qual ==> x.0 != "" && x.1 != "")
  }

  ghost predicate NoGlobals(sites: set<Site>) {
    forall s :: s in sites ==> !s.GlobalSite?
  }

  ghost predicate OnlyGlobals(sites: set<Site>) {
    forall s :: s in sites ==> s.GlobalSite?
  }

  /** Two passes in a row, the globals last, are one pass for both sets of sites. */
  lemma {:induction false} PassesCompose(t: Tables, a: set<Site>, b: set<Site>, slot: Slot, n: Node)
    requires SymbolsFresh(t) && (NoGlobals(a) || OnlyGlobals(b))
    ensures Rewrite(Restrict(t, b), slot, Rewrite(Restrict(t, a), slot, n)) == Rewrite(Restrict(t, a + b), slot, n)
    decreases n
  {
    hide FreeCall, SpelledTarget, MethodTarget, Splices, SymbolsFresh, NoGlobals, OnlyGlobals, Restrict;
    if slot != Skipped {
      match n
      case Ident(_, _, _) => ReadComposes(t, a, b, slot, n);
      case Field(x, _, _) => PassesCompose(t, a, b, Spliced, x);
      case Call(callee, _, _, args, _) =>
        PassesCompose(t, a, b, Spliced, callee);
        PassesComposeAll(t, a, b, Spliced, args);
        CalleeComposes(t, a, b, callee);
      case MethodCall(recv, _, _, _, args, _) =>
        PassesCompose(t, a, b, Spliced, recv);
        PassesComposeAll(t, a, b, Spliced, args);
        MethodComposes(t, a, b, slot, n);
      case Shape(tag, _, kids, _) => PassesComposeAll(t, a, b, KidSlot(slot, tag), kids);
    }
  }

  lemma {:induction false} ReadComposes(t: Tables, a: set<Site>, b: set<Site>, slot: Slot, n: Node)
    requires SymbolsFresh(t) && (NoGlobals(a) || OnlyGlobals(b)) && n.Ident?
    ensures Rewrite(Restrict(t, b), slot, Rewrite(Restrict(t, a), slot, n)) == Rewrite(Restrict(t, a + b), slot, n)
  {
    hide Symbol;
  }

  lemma {:induction false} PassesComposeAll(t: Tables, a: set<Site>, b: set<Site>, slot: Slot, ns: seq<Node>)
    requires SymbolsFresh(t) && (NoGlobals(a) || OnlyGlobals(b))
    ensures RewriteAll(Restrict(t, b), slot, RewriteAll(Restrict(t, a), slot, ns)) == RewriteAll(Restrict(t, a + b), slot, ns)
    decreases ns
  {
    if ns != [] {
      PassesCompose(t, a, b, slot, ns[0]);
      PassesComposeAll(t, a, b, slot, ns[1..]);
      assert RewriteAll(Restrict(t, a), slot, ns)[1..] == RewriteAll(Restrict(t, a), slot, ns[1..]);
    }
  }

  /** The callee a pass leaves behind. */
  function RewriteCallee(t: Tables, callee: Node): Node {
    match SpelledTarget(t, callee)
    case Some(target) => Ident(Fn, TargetSymbol(target), callee.ty)
    case None => Rewrite(t, Spliced, callee)
  }

  /** Callees that are spelled out by name: `f` or `q.f`. */
  predicate Spelled(callee: Node) {
    callee.Ident? || (callee.Field? && callee.x.Ident?)
  }

  lemma {:induction false} NotSpelled(t: Tables, callee: Node)
    requires !Spelled(callee)
    ensures RewriteCallee(t, callee) == Rewrite(t, Spliced, callee) && !Spelled(Rewrite(t, Spliced, callee))
  {
  }

  lemma {:induction false} NameComposes(t: Tables, a: set<Site>, b: set<Site>, callee: Node)
    requires callee.Ident?
    requires SymbolsFresh(t) && (NoGlobals(a) || OnlyGlobals(b))
    requires Rewrite(Restrict(t, b), Spliced, Rewrite(Restrict(t, a), Spliced, callee)) == Rewrite(Restrict(t, a + b), Spliced, callee)
    ensures RewriteCallee(Restrict(t, b), RewriteCallee(Restrict(t, a), callee)) == RewriteCallee(Restrict(t, a + b), callee)
  {
    hide TargetSymbol, Symbol;
  }

  lemma {:induction false} QualifiedComposes(t: Tables, a: set<Site>, b: set<Site>, callee: Node)
    requires callee.Field? && callee.x.Ident?
    requires SymbolsFresh(t) && (NoGlobals(a) || OnlyGlobals(b))
    requires Rewrite(Restrict(t, b), Spliced, Rewrite(Restrict(t, a), Spliced, callee)) == Rewrite(Restrict(t, a + b), Spliced, callee)
    ensures RewriteCallee(Restrict(t, b), RewriteCallee(Restrict(t, a), callee)) == RewriteCallee(Restrict(t, a + b), callee)
  {
    hide TargetSymbol, Symbol;
  }

  lemma {:induction false} CalleeComposes(t: Tables, a: set<Site>, b: set<Site>, callee: Node)
    requires SymbolsFresh(t) && (NoGlobals(a) || OnlyGlobals(b))
    requires Rewrite(Restrict(t, b), Spliced, Rewrite(Restrict(t, a), Spliced, callee)) == Rewrite(Restrict(t, a + b), Spliced, callee)
    ensures RewriteCallee(Restrict(t, b), RewriteCallee(Restrict(t, a), callee)) == RewriteCallee(Restrict(t, a + b), callee)
  {
    hide SymbolsFresh, NoGlobals, OnlyGlobals, RewriteCallee, Rewrite, Restrict;
    var ta, tb := Restrict(t, a), Restrict(t, b);
    if callee.Ident? {
      NameComposes(t, a, b, callee);
    } else if Spelled(callee) {
      QualifiedComposes(t, a, b, callee);
    } else {
      NotSpelled(ta, callee);
      NotSpelled(tb, Rewrite(ta, Spliced, callee));
      NotSpelled(Restrict(t, a + b), callee);
    }
  }

  lemma {:induction false} TypesKept(t: Tables, slot: Slot, ns: seq<Node>)
    ensures TypesOf(RewriteAll(t, slot, ns)) == TypesOf(ns)
  {
    if ns != [] {
      RewriteKeepsType(t, slot, ns[0]);
      TypesKept(t, slot, ns[1..]);
      var r := RewriteAll(t, slot, ns);
      forall i | 0 <= i < |ns|
        ensures r[i].ty == ns[i].ty
      {
        if i > 0 {
          assert TypesOf(r[1..])[i - 1] == TypesOf(ns[1..])[i - 1];
        }
      }
    }
  }

  /** A later pass only rewrites inside a call that replaced a method call. */
  lemma {:induction false} FreeCallRewritten(t: Tables, k: MethodKey, recv: Node, typeArgs: seq<Type>, argNames: seq<string>, args: seq<Node>, recvTy: Type, ty: Type)
    requires Symbol(StdMethod(k)) !in t.bare
    ensures Rewrite(t, Spliced, FreeCall(k, recv, typeArgs, argNames, args, recvTy, ty)) ==
            FreeCall(k, Rewrite(t, Spliced, recv), typeArgs, argNames, RewriteAll(t, Spliced, args), recvTy, ty)
  {
    hide TypesOf, Symbol, OwnerArgs, MethodTarget;
    var recv', args' := Rewrite(t, Spliced, recv), RewriteAll(t, Spliced, args);
    RewriteKeepsType(t, Spliced, recv);
    TypesKept(t, Spliced, args);
    assert TypesOf([recv] + args) == [recv.ty] + TypesOf(args);
    assert TypesOf([recv'] + args') == [recv.ty] + TypesOf(args);
    assert ([recv] + args)[1..] == args;
    assert RewriteAll(t, Spliced, [recv] + args) == [recv'] + args';
  }

  lemma {:induction false} MethodComposes(t: Tables, a: set<Site>, b: set<Site>, slot: Slot, n: Node)
    requires SymbolsFresh(t) && n.MethodCall? && slot != Skipped
    requires Rewrite(Restrict(t, b), Spliced, Rewrite(Restrict(t, a), Spliced, n.recv)) == Rewrite(Restrict(t, a + b), Spliced, n.recv)
    requires RewriteAll(Restrict(t, b), Spliced, RewriteAll(Restrict(t, a), Spliced, n.args)) == RewriteAll(Restrict(t, a + b), Spliced, n.args)
    ensures Rewrite(Restrict(t, b), slot, Rewrite(Restrict(t, a), slot, n)) == Rewrite(Restrict(t, a + b), slot, n)
  {
    hide FreeCall, SpelledTarget, Symbol;
    var ta, tb, tab := Restrict(t, a), Restrict(t, b), Restrict(t, a + b);
    RewriteKeepsType(ta, Spliced, n.recv);
    var target := MethodTarget(ta, n.recv.ty, n.name);
    if slot == Spliced && target.Some? {
      assert MethodTarget(tab, n.recv.ty, n.name) == target;
      FreeCallRewritten(tb, target.value, Rewrite(ta, Spliced, n.recv), n.typeArgs, n.argNames,
                        RewriteAll(ta, Spliced, n.args), n.recv.ty, n.ty);
    } else if slot == Spliced {
      assert MethodTarget(tab, n.recv.ty, n.name) == MethodTarget(tb, n.recv.ty, n.name);
    }
  }

  /** Sites that do not occur in a tree do not matter to it. */
  lemma {:induction false} OnlySitesMatter(t: Tables, sites: set<Site>, slot: Slot, n: Node)
    requires SymbolsFresh(t) && Sites(slot, n) <= sites
    ensures Rewrite(Restrict(t, sites), slot, n) == Rewrite(t, slot, n)
    decreases n
  {
    if slot != Skipped {
      match n
      case Ident(_, _, _) =>
      case Field(x, _, _) => OnlySitesMatter(t, sites, Spliced, x);
      case Call(callee, _, _, args, _) =>
        OnlySitesMatter(t, sites, Spliced, callee);
        OnlySitesMatterAll(t, sites, Spliced, args);
        assert SpelledTarget(Restrict(t, sites), callee) == SpelledTarget(t, callee);
      case MethodCall(recv, name, _, _, args, _) =>
        OnlySitesMatter(t, sites, Spliced, recv);
        OnlySitesMatterAll(t, sites, Spliced, args);
        assert MethodTarget(Restrict(t, sites), recv.ty, name) == MethodTarget(t, recv.ty, name);
      case Shape(tag, _, kids, _) => OnlySitesMatterAll(t, sites, KidSlot(slot, tag), kids);
    }
  }

  lemma {:induction false} OnlySitesMatterAll(t: Tables, sites: set<Site>, slot: Slot, ns: seq<Node>)
    requires SymbolsFresh(t) && SitesAll(slot, ns) <= sites
    ensures RewriteAll(Restrict(t, sites), slot, ns) == RewriteAll(t, slot, ns)
    decreases ns
  {
    if ns != [] {
      OnlySitesMatter(t, sites, slot, ns[0]);
      OnlySitesMatterAll(t, sites, slot, ns[1..]);
    }
  }

  // ---- What a later scan sees ----

  /** Rewriting call sites neither hides nor adds other qualified calls and method calls. */
  lemma {:induction false} ScanStable(t: Tables, done: set<Site>, slot: Slot, n: Node, s: Site)
    requires NoGlobals(done) && s !in done && (s.QualSite? || s.MethodSite?)
    ensures s in Sites(slot, Rewrite(Restrict(t, done), slot, n)) <==> s in Sites(slot, n)
    decreases n
  {
    if slot != Skipped {
      match n
      case Ident(_, _, _) =>
      case Field(x, _, _) => ScanStable(t, done, Spliced, x, s);
      case Call(callee, _, _, args, _) =>
        hide Restrict, SpelledTarget, NoGlobals;
        ScanStable(t, done, Spliced, callee, s);
        ScanStableAll(t, done, Spliced, args, s);
        CalleeScanStable(t, done, callee, s);
      case MethodCall(recv, _, _, _, args, _) =>
        hide Restrict, NoGlobals;
        ScanStable(t, done, Spliced, recv, s);
        ScanStableAll(t, done, Spliced, args, s);
        MethodScanStable(t, done, slot, n, s);
      case Shape(tag, _, kids, _) =>
        hide Restrict, NoGlobals;
        ScanStableAll(t, done, KidSlot(slot, tag), kids, s);
    }
  }

  lemma {:induction false} ScanStableAll(t: Tables, done: set<Site>, slot: Slot, ns: seq<Node>, s: Site)
    requires NoGlobals(done) && s !in done && (s.QualSite? || s.MethodSite?)
    ensures s in SitesAll(slot, RewriteAll(Restrict(t, done), slot, ns)) <==> s in SitesAll(slot, ns)
    decreases ns
  {
    if ns != [] {
      hide Restrict, NoGlobals;
      ScanStable(t, done, slot, ns[0], s);
      ScanStableAll(t, done, slot, ns[1..], s);
      assert RewriteAll(Restrict(t, done), slot, ns)[1..] == RewriteAll(Restrict(t, done), slot, ns[1..]);
    }
  }

  lemma {:induction false} CalleeScanStable(t: Tables, done: set<Site>, callee: Node, s: Site)
    requires NoGlobals(done) && s !in done && (s.QualSite? || s.MethodSite?)
    requires s in Sites(Spliced, Rewrite(Restrict(t, done), Spliced, callee)) <==> s in Sites(Spliced, callee)
    ensures var callee' := RewriteCallee(Restrict(t, done), callee);
      s in CalleeSites(callee') + Sites(Spliced, callee') <==> s in CalleeSites(callee) + Sites(Spliced, callee)
  {
  }

  lemma {:induction false} MethodScanStable(t: Tables, done: set<Site>, slot: Slot, n: Node, s: Site)
    requires s !in done && (s.QualSite? || s.MethodSite?) && n.MethodCall? && slot != Skipped
    requires s in Sites(Spliced, Rewrite(Restrict(t, done), Spliced, n.recv)) <==> s in Sites(Spliced, n.recv)
    requires s in SitesAll(Spliced, RewriteAll(Restrict(t, done), Spliced, n.args)) <==> s in SitesAll(Spliced, n.args)
    ensures s in Sites(slot, Rewrite(Restrict(t, done), slot, n)) <==> s in Sites(slot, n)
  {
    hide FreeCall;
    var t' := Restrict(t, done);
    var recv', args' := Rewrite(t', Spliced, n.recv), RewriteAll(t', Spliced, n.args);
    RewriteKeepsType(t', Spliced, n.recv);
    match MethodTarget(t', n.recv.ty, n.name)
    case Some(k) =>
      assert s != MethodSite(k);
      FreeCallSites(k, recv', n.typeArgs, n.argNames, args', n.recv.ty, n.ty, s);
    case None =>
  }

  lemma {:induction false} FreeCallSites(k: MethodKey, recv: Node, typeArgs: seq<Type>, argNames: seq<string>, args: seq<Node>, recvTy: Type, ty: Type, s: Site)
    requires s.QualSite? || s.MethodSite?
    ensures s in Sites(Spliced, FreeCall(k, recv, typeArgs, argNames, args, recvTy, ty)) <==> s in Sites(Spliced, recv) || s in SitesAll(Spliced, args)
  {
    hide Symbol, OwnerArgs, TypesOf;
    assert ([recv] + args)[1..] == args;
  }

  /** Rewriting calls by name leaves the method calls on identifiers as they are. */
  lemma {:induction false} ReceiverScanStable(t: Tables, done: set<Site>, slot: Slot, n: Node)
    requires forall s :: s in done ==> s.BareSite? || s.QualSite?
    ensures ReceiverSites(slot, Rewrite(Restrict(t, done), slot, n)) == ReceiverSites(slot, n)
    decreases n
  {
    if slot != Skipped {
      var t' := Restrict(t, done);
      assert t'.methods == {} && t'.globals == map[];
      match n
      case Ident(_, _, _) =>
      case Field(x, _, _) => ReceiverScanStable(t, done, Spliced, x);
      case Call(callee, _, _, args, _) =>
        hide Restrict;
        ReceiverScanStable(t, done, Spliced, callee);
        ReceiverScanStableAll(t, done, Spliced, args);
      case MethodCall(recv, _, _, _, args, _) =>
        hide Restrict;
        ReceiverScanStable(t, done, Spliced, recv);
        ReceiverScanStableAll(t, done, Spliced, args);
      case Shape(tag, _, kids, _) =>
        hide Restrict;
        ReceiverScanStableAll(t, done, KidSlot(slot, tag), kids);
    }
  }

  lemma {:induction false} ReceiverScanStableAll(t: Tables, done: set<Site>, slot: Slot, ns: seq<Node>)
    requires forall s :: s in done ==> s.BareSite? || s.QualSite?
    ensures ReceiverSitesAll(slot, RewriteAll(Restrict(t, done), slot, ns)) == ReceiverSitesAll(slot, ns)
    decreases ns
  {
    if ns != [] {
      hide Restrict;
      ReceiverScanStable(t, done, slot, ns[0]);
      ReceiverScanStableAll(t, done, slot, ns[1..]);
      assert RewriteAll(Restrict(t, done), slot, ns)[1..] == RewriteAll(Restrict(t, done), slot, ns[1..]);
    }
  }

  // ---- Nothing is left that the passes reach ----

  /** A function named as a value, as the tables know it: `f` or `q.f` with nothing bound locally. */
  predicate NamesFunction(t: Tables, n: Node) {
    SpelledTarget(t, n).Some? && !LocallyBound(n)
  }

  /** Something in the tree is still spelled as the tables know it: a callee, a function value, a method call or a global read. */
  ghost predicate Unlinked(t: Tables, n: Node)
    decreases n
  {
    match n
    case Ident(k, name, _) => (k == Global && name in t.globals) || NamesFunction(t, n)
    case Field(x, _, _) => NamesFunction(t, n) || Unlinked(t, x)
    case Call(callee, _, _, args, _) => SpelledTarget(t, callee).Some? || Unlinked(t, callee) || AnyUnlinked(t, args)
    case MethodCall(recv, name, _, _, args, _) =>
      MethodTarget(t, recv.ty, name).Some? || Unlinked(t, recv) || AnyUnlinked(t, args)
    case Shape(_, _, kids, _) => AnyUnlinked(t, kids)
  }

  ghost predicate AnyUnlinked(t: Tables, ns: seq<Node>)
    decreases ns
  {
    ns != [] && (Unlinked(t, ns[0]) || AnyUnlinked(t, ns[1..]))
  }

  /** The name is a global's that the passes rename, so it is not a function's any more. */
  predicate RenamedRead(t: Tables, slot: Slot, n: Node) {
    slot != Skipped && n.Ident? && n.kind == Global && n.name in t.globals
  }

  /**
   Such a thing sits where the passes do not reach: outside the walk, a method call in an uncovered
   slot, or a function named as a value anywhere.
   */
  ghost predicate Missed(t: Tables, slot: Slot, n: Node)
    decreases n
  {
    match n
    case Ident(k, name, _) => !RenamedRead(t, slot, n) && ((k == Global && name in t.globals) || NamesFunction(t, n))
    case Field(x, _, _) => (!RenamedRead(t, slot, x) && NamesFunction(t, n)) || Missed(t, ExprSlot(slot), x)
    case Call(callee, _, _, args, _) =>
      || AnyMissed(t, ExprSlot(slot), args)
      || (if SpelledTarget(t, callee).Some? then slot == Skipped else Missed(t, ExprSlot(slot), callee))
    case MethodCall(recv, name, _, _, args, _) =>
      || (MethodTarget(t, recv.ty, name).Some? && slot != Spliced)
      || Missed(t, ExprSlot(slot), recv) || AnyMissed(t, ExprSlot(slot), args)
    case Shape(tag, _, kids, _) => AnyMissed(t, KidSlot(slot, tag), kids)
  }

  ghost predicate AnyMissed(t: Tables, slot: Slot, ns: seq<Node>)
    decreases ns
  {
    ns != [] && (Missed(t, slot, ns[0]) || AnyMissed(t, slot, ns[1..]))
  }

  /** Emitted symbols are no names in the tables, those of globals no qualifiers either. */
  ghost predicate AllFresh(t: Tables) {
    && SymbolsFresh(t)
    && (forall x, y :: x in t.globals && y in t.bare ==> Symbol(t.globals[x]) != y)
    && (forall x, y :: x in t.globals && y in t.qual ==> Symbol(t.globals[x]) != y.0)
  }

  /** Something is left unlinked exactly when it sat where the passes do not reach. */
  lemma {:induction false} LeftIff(t: Tables, slot: Slot, n: Node)
    requires AllFresh(t)
    ensures Unlinked(t, Rewrite(t, slot, n)) <==> Missed(t, slot, n)
    decreases n
  {
    match n
    case Ident(_, _, _) =>
    case Field(x, _, _) =>
      hide Unlinked, Missed;
      LeftIff(t, ExprSlot(slot), x);
      FieldLeftIff(t, slot, n);
    case Call(callee, _, _, args, _) =>
      hide AllFresh, Unlinked, Missed;
      LeftIff(t, ExprSlot(slot), callee);
      AnyLeftIff(t, ExprSlot(slot), args);
      CalleeLeftIff(t, slot, n);
    case MethodCall(recv, name, typeArgs, argNames, args, ty) =>
      hide AllFresh, Unlinked, Missed, MethodTarget;
      LeftIff(t, ExprSlot(slot), recv);
      AnyLeftIff(t, ExprSlot(slot), args);
      MethodLinkedIff(t, slot, n);
    case Shape(tag, _, kids, _) =>
      hide AllFresh;
      AnyLeftIff(t, KidSlot(slot, tag), kids);
      RewriteSkipped(t, kids);
  }

  lemma {:induction false} FieldLeftIff(t: Tables, slot: Slot, n: Node)
    requires AllFresh(t) && n.Field?
    requires Unlinked(t, Rewrite(t, ExprSlot(slot), n.x)) <==> Missed(t, ExprSlot(slot), n.x)
    ensures Unlinked(t, Rewrite(t, slot, n)) <==> Missed(t, slot, n)
  {
    hide MethodTarget, TargetSymbol, Symbol;
    if !n.x.Ident? {
      hide AllFresh;
      assert slot != Skipped ==> !Rewrite(t, Spliced, n.x).Ident?;
    }
  }

  lemma {:induction false} AnyLeftIff(t: Tables, slot: Slot, ns: seq<Node>)
    requires AllFresh(t)
    ensures AnyUnlinked(t, RewriteAll(t, slot, ns)) <==> AnyMissed(t, slot, ns)
    decreases ns
  {
    if ns != [] {
      hide AllFresh;
      LeftIff(t, slot, ns[0]);
      AnyLeftIff(t, slot, ns[1..]);
      assert RewriteAll(t, slot, ns)[1..] == RewriteAll(t, slot, ns[1..]);
    }
  }

  /** A callee that the tables do not know stays unknown to them. */
  lemma {:induction false} CalleeStaysUnknown(t: Tables, callee: Node)
    requires AllFresh(t) && SpelledTarget(t, callee) == None
    ensures SpelledTarget(t, Rewrite(t, Spliced, callee)) == None
  {
  }

  lemma {:induction false} CalleeLeftIff(t: Tables, slot: Slot, n: Node)
    requires AllFresh(t) && n.Call?
    requires Unlinked(t, Rewrite(t, ExprSlot(slot), n.callee)) <==> Missed(t, ExprSlot(slot), n.callee)
    requires AnyUnlinked(t, RewriteAll(t, ExprSlot(slot), n.args)) <==> AnyMissed(t, ExprSlot(slot), n.args)
    ensures Unlinked(t, Rewrite(t, slot, n)) <==> Missed(t, slot, n)
  {
    RewriteSkipped(t, n.args);
    if SpelledTarget(t, n.callee) == None {
      CalleeStaysUnknown(t, n.callee);
      hide SpelledTarget, AllFresh;
    } else {
      hide MethodTarget;
    }
  }

  lemma {:induction false} MethodLinkedIff(t: Tables, slot: Slot, n: Node)
    requires AllFresh(t) && n.MethodCall?
    requires Unlinked(t, Rewrite(t, ExprSlot(slot), n.recv)) <==> Missed(t, ExprSlot(slot), n.recv)
    requires AnyUnlinked(t, RewriteAll(t, ExprSlot(slot), n.args)) <==> AnyMissed(t, ExprSlot(slot), n.args)
    ensures Unlinked(t, Rewrite(t, slot, n)) <==> Missed(t, slot, n)
  {
    hide AllFresh, MethodTarget, FreeCall;
    RewriteSkipped(t, n.args);
    RewriteKeepsType(t, ExprSlot(slot), n.recv);
    if slot == Spliced && MethodTarget(t, n.recv.ty, n.name).Some? {
      MethodKnown(t, n);
      var k := MethodTarget(t, n.recv.ty, n.name).value;
      FreeCallLinked(t, k, Rewrite(t, Spliced, n.recv), n.typeArgs, n.argNames, RewriteAll(t, Spliced, n.args), n.recv.ty, n.ty);
    }
  }

  lemma {:induction false} FreeCallLinked(t: Tables, k: MethodKey, recv: Node, typeArgs: seq<Type>, argNames: seq<string>, args: seq<Node>, recvTy: Type, ty: Type)
    requires Symbol(StdMethod(k)) !in t.bare
    ensures Unlinked(t, FreeCall(k, recv, typeArgs, argNames, args, recvTy, ty)) <==> Unlinked(t, recv) || AnyUnlinked(t, args)
  {
    hide Symbol, OwnerArgs, TypesOf;
    assert ([recv] + args)[1..] == args;
  }

  lemma {:induction false} MethodKnown(t: Tables, n: Node)
    requires n.MethodCall? && MethodTarget(t, n.recv.ty, n.name).Some? && AllFresh(t)
    ensures Symbol(StdMethod(MethodTarget(t, n.recv.ty, n.name).value)) !in t.bare
  {
  }

  // ---- Initialisers of globals ----

  /** No global is named like a function of the scope or like a qualifier. */
  ghost predicate GlobalsApart(t: Tables) {
    && (forall x :: x in t.globals ==> x !in t.bare && Symbol(t.globals[x]) !in t.bare)
    && (forall x, y :: x in t.globals && y in t.qual ==> x != y.0 && Symbol(t.globals[x]) != y.0)
  }

  /** Only global reads are rewritten in an initialiser, so it is linked exactly when it calls nothing the scope knows. */
  lemma {:induction false} InitialiserCallsStay(t: Tables, slot: Slot, n: Node)
    requires GlobalsApart(t)
    ensures CallsNothing(t, Rewrite(GlobalsOnly(t), slot, n)) <==> CallsNothing(t, n)
    decreases n
  {
    if slot != Skipped {
      match n
      case Ident(_, _, _) =>
      case Field(x, _, _) =>
        hide GlobalsApart;
        InitialiserCallsStay(t, Spliced, x);
      case Call(callee, _, _, args, _) =>
        InitialiserCallsStay(t, Spliced, callee);
        AllInitialiserCallsStay(t, Spliced, args);
        InitialiserCalleeStays(t, callee);
        hide GlobalsApart, SpelledTarget;
      case MethodCall(recv, _, _, _, args, _) =>
        hide GlobalsApart;
        InitialiserCallsStay(t, Spliced, recv);
        AllInitialiserCallsStay(t, Spliced, args);
        RewriteKeepsType(GlobalsOnly(t), Spliced, recv);
      case Shape(tag, _, kids, _) =>
        hide GlobalsApart;
        AllInitialiserCallsStay(t, KidSlot(slot, tag), kids);
    }
  }

  lemma {:induction false} InitialiserCalleeStays(t: Tables, callee: Node)
    requires GlobalsApart(t)
    ensures SpelledTarget(GlobalsOnly(t), callee) == None
    ensures SpelledTarget(t, Rewrite(GlobalsOnly(t), Spliced, callee)) == None <==> SpelledTarget(t, callee) == None
  {
  }

  lemma {:induction false} AllInitialiserCallsStay(t: Tables, slot: Slot, ns: seq<Node>)
    requires GlobalsApart(t)
    ensures AllCallNothing(t, RewriteAll(GlobalsOnly(t), slot, ns)) <==> AllCallNothing(t, ns)
    decreases ns
  {
    if ns != [] {
      hide GlobalsApart;
      InitialiserCallsStay(t, slot, ns[0]);
      AllInitialiserCallsStay(t, slot, ns[1..]);
      assert RewriteAll(GlobalsOnly(t), slot, ns)[1..] == RewriteAll(GlobalsOnly(t), slot, ns[1..]);
    }
  }

  /** A global whose initialiser calls a function of its module still does so in source spelling. */
  lemma {:induction false} InitialiserCallLeft()
    ensures
      var t := Tables(map["make" := Def(StdFn("gui", "make"))], map[], {}, map["root" := StdLet("gui", "root")], map[]);
      var init := Call(Ident(Fn, "make", OtherType("fn")), [], [], [], OtherType("View"));
      Rewrite(GlobalsOnly(t), Walked, init) == init && !CallsNothing(t, init) && Unlinked(t, Rewrite(GlobalsOnly(t), Walked, init))
  {
    var t := Tables(map["make" := Def(StdFn("gui", "make"))], map[], {}, map["root" := StdLet("gui", "root")], map[]);
    var callee := Ident(Fn, "make", OtherType("fn"));
    assert SpelledTarget(t, callee).Some?;
    assert Rewrite(GlobalsOnly(t), Spliced, callee) == callee;
  }

  /** A function handed on as a value stays in its source spelling. */
  lemma {:induction false} FunctionValueLeft()
    ensures
      var t := Tables(map["trim" := Def(StdFn("strings", "trim"))], map[], {}, map[], map[]);
      var call := Call(Ident(Local, "apply", OtherType("fn")), [], [], [Ident(Fn, "trim", OtherType("fn"))], OtherType("String"));
      Rewrite(t, Walked, call) == call && Sites(Walked, call) == {BareSite("apply")} && Unlinked(t, call) && Missed(t, Walked, call)
  {
    var t := Tables(map["trim" := Def(StdFn("strings", "trim"))], map[], {}, map[], map[]);
    var apply, trim := Ident(Local, "apply", OtherType("fn")), Ident(Fn, "trim", OtherType("fn"));
    assert Rewrite(t, Spliced, apply) == apply && Rewrite(t, Spliced, trim) == trim;
    assert RewriteAll(t, Spliced, [trim]) == [trim] + RewriteAll(t, Spliced, [trim][1..]);
    assert NamesFunction(t, trim);
    assert SitesAll(Spliced, [trim]) == Sites(Spliced, trim) + SitesAll(Spliced, [trim][1..]);
    assert AnyUnlinked(t, [trim]) && AnyMissed(t, Spliced, [trim]);
  }
}
