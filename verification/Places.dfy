/**
 Where nodes sit in a tree, told without the scanners; what the scanners find is what sits in the walked
 part, and rewriting leaves a rewritten node where a call sat.
 */
module Places {

  import opened Ir
  import opened Link
  import opened Passes
  import opened Wrappers

  /** Node `x` sits in the walked part of `n`, in slot `at`. */
  ghost predicate Sits(slot: Slot, n: Node, at: Slot, x: Node)
    decreases n
  {
    slot != Skipped && ((at == slot && x == n) || Below(slot, n, at, x))
  }

  ghost predicate Below(slot: Slot, n: Node, at: Slot, x: Node)
    decreases n, 0
  {
    match n
    case Ident(_, _, _) => false
    case Field(y, _, _) => Sits(Spliced, y, at, x)
    case Call(callee, _, _, args, _) => Sits(Spliced, callee, at, x) || AnySits(Spliced, args, at, x)
    case MethodCall(recv, _, _, _, args, _) => Sits(Spliced, recv, at, x) || AnySits(Spliced, args, at, x)
    case Shape(tag, _, kids, _) => AnySits(KidSlot(slot, tag), kids, at, x)
  }

  ghost predicate AnySits(slot: Slot, ns: seq<Node>, at: Slot, x: Node)
    decreases ns
  {
    ns != [] && (Sits(slot, ns[0], at, x) || AnySits(slot, ns[1..], at, x))
  }

  // ---- The scanners ----

  /** What the node gives the scanners to look up. */
  ghost predicate Shows(x: Node, s: Site) {
    match s
    case BareSite(f) => f != "" && x.Call? && x.callee.Ident? && x.callee.name == f
    case QualSite(q, f) => q != "" && f != "" && x.Call? && x.callee.Field? && x.callee.x.Ident? && x.callee.x.name == q && x.callee.name == f
    case MethodSite(k) => k.name != "" && x.MethodCall? && x.name == k.name && ReceiverOwner(x.recv.ty) == Some((k.owner, k.typeName))
    case GlobalSite(g) => g != "" && x.Ident? && x.kind == Global && x.name == g
  }

  /** A node that shows it sits in the walked part. */
  ghost predicate Shown(slot: Slot, n: Node, s: Site) {
    exists at, x :: Sits(slot, n, at, x) && Shows(x, s)
  }

  lemma {:induction false} SiteFound(slot: Slot, n: Node, at: Slot, x: Node, s: Site)
    requires Sits(slot, n, at, x) && Shows(x, s)
    ensures s in Sites(slot, n)
    decreases n
  {
    if !(at == slot && x == n) {
      match n
      case Ident(_, _, _) =>
      case Field(y, _, _) => SiteFound(Spliced, y, at, x, s);
      case Call(callee, _, _, args, _) =>
        if Sits(Spliced, callee, at, x) {
          SiteFound(Spliced, callee, at, x, s);
        } else {
          AnySiteFound(Spliced, args, at, x, s);
        }
      case MethodCall(recv, _, _, _, args, _) =>
        if Sits(Spliced, recv, at, x) {
          SiteFound(Spliced, recv, at, x, s);
        } else {
          AnySiteFound(Spliced, args, at, x, s);
        }
      case Shape(tag, _, kids, _) => AnySiteFound(KidSlot(slot, tag), kids, at, x, s);
    }
  }

  lemma {:induction false} AnySiteFound(slot: Slot, ns: seq<Node>, at: Slot, x: Node, s: Site)
    requires AnySits(slot, ns, at, x) && Shows(x, s)
    ensures s in SitesAll(slot, ns)
    decreases ns
  {
    if Sits(slot, ns[0], at, x) {
      SiteFound(slot, ns[0], at, x, s);
    } else {
      AnySiteFound(slot, ns[1..], at, x, s);
    }
  }

  lemma {:induction false} SiteSits(slot: Slot, n: Node, s: Site) returns (at: Slot, x: Node)
    requires s in Sites(slot, n)
    ensures Sits(slot, n, at, x) && Shows(x, s)
    decreases n
  {
    at, x := slot, n;
    if !Shows(n, s) {
      match n
      case Ident(_, _, _) =>
      case Field(y, _, _) => at, x := SiteSits(Spliced, y, s);
      case Call(callee, _, _, args, _) =>
        if s in Sites(Spliced, callee) {
          at, x := SiteSits(Spliced, callee, s);
        } else {
          at, x := AnySiteSits(Spliced, args, s);
        }
      case MethodCall(recv, _, _, _, args, _) =>
        if s in Sites(Spliced, recv) {
          at, x := SiteSits(Spliced, recv, s);
        } else {
          at, x := AnySiteSits(Spliced, args, s);
        }
      case Shape(tag, _, kids, _) => at, x := AnySiteSits(KidSlot(slot, tag), kids, s);
    }
  }

  lemma {:induction false} AnySiteSits(slot: Slot, ns: seq<Node>, s: Site) returns (at: Slot, x: Node)
    requires s in SitesAll(slot, ns)
    ensures AnySits(slot, ns, at, x) && Shows(x, s)
    decreases ns
  {
    if s in Sites(slot, ns[0]) {
      at, x := SiteSits(slot, ns[0], s);
    } else {
      at, x := AnySiteSits(slot, ns[1..], s);
    }
  }

  /** A scanner finds something exactly if a node that shows it sits in the walked part. */
  lemma {:induction false} SitesIff(slot: Slot, n: Node, s: Site)
    ensures s in Sites(slot, n) <==> Shown(slot, n, s)
  {
    hide Shows, Sites, Sits;
    if s in Sites(slot, n) {
      var at, x := SiteSits(slot, n, s);
      assert Sits(slot, n, at, x) && Shows(x, s);
    }
    forall at, x | Sits(slot, n, at, x) && Shows(x, s)
      ensures s in Sites(slot, n)
    {
      SiteFound(slot, n, at, x, s);
    }
  }

  /** A method call on an identifier, which the user module's scan also takes for a qualified call. */
  ghost predicate ShowsReceiver(x: Node, q: string, f: string) {
    q != "" && f != "" && x.MethodCall? && x.recv.Ident? && x.recv.name == q && x.name == f
  }

  lemma {:induction false} ReceiverFound(slot: Slot, n: Node, at: Slot, x: Node, q: string, f: string)
    requires Sits(slot, n, at, x) && ShowsReceiver(x, q, f)
    ensures QualSite(q, f) in ReceiverSites(slot, n)
    decreases n
  {
    if !(at == slot && x == n) {
      match n
      case Ident(_, _, _) =>
      case Field(y, _, _) => ReceiverFound(Spliced, y, at, x, q, f);
      case Call(callee, _, _, args, _) =>
        if Sits(Spliced, callee, at, x) {
          ReceiverFound(Spliced, callee, at, x, q, f);
        } else {
          AnyReceiverFound(Spliced, args, at, x, q, f);
        }
      case MethodCall(recv, _, _, _, args, _) =>
        if Sits(Spliced, recv, at, x) {
          ReceiverFound(Spliced, recv, at, x, q, f);
        } else {
          AnyReceiverFound(Spliced, args, at, x, q, f);
        }
      case Shape(tag, _, kids, _) => AnyReceiverFound(KidSlot(slot, tag), kids, at, x, q, f);
    }
  }

  lemma {:induction false} AnyReceiverFound(slot: Slot, ns: seq<Node>, at: Slot, x: Node, q: string, f: string)
    requires AnySits(slot, ns, at, x) && ShowsReceiver(x, q, f)
    ensures QualSite(q, f) in ReceiverSitesAll(slot, ns)
    decreases ns
  {
    if Sits(slot, ns[0], at, x) {
      ReceiverFound(slot, ns[0], at, x, q, f);
    } else {
      AnyReceiverFound(slot, ns[1..], at, x, q, f);
    }
  }

  lemma {:induction false} ReceiverSits(slot: Slot, n: Node, s: Site) returns (at: Slot, x: Node)
    requires s in ReceiverSites(slot, n)
    ensures s.QualSite? && Sits(slot, n, at, x) && ShowsReceiver(x, s.qualifier, s.name)
    decreases n
  {
    at, x := slot, n;
    if !(s.QualSite? && ShowsReceiver(n, s.qualifier, s.name)) {
      match n
      case Field(y, _, _) => at, x := ReceiverSits(Spliced, y, s);
      case Call(callee, _, _, args, _) =>
        if s in ReceiverSites(Spliced, callee) {
          at, x := ReceiverSits(Spliced, callee, s);
        } else {
          at, x := AnyReceiverSits(Spliced, args, s);
        }
      case MethodCall(recv, _, _, _, args, _) =>
        if s in ReceiverSites(Spliced, recv) {
          at, x := ReceiverSits(Spliced, recv, s);
        } else {
          at, x := AnyReceiverSits(Spliced, args, s);
        }
      case Shape(tag, _, kids, _) => at, x := AnyReceiverSits(KidSlot(slot, tag), kids, s);
    }
  }

  lemma {:induction false} AnyReceiverSits(slot: Slot, ns: seq<Node>, s: Site) returns (at: Slot, x: Node)
    requires s in ReceiverSitesAll(slot, ns)
    ensures s.QualSite? && AnySits(slot, ns, at, x) && ShowsReceiver(x, s.qualifier, s.name)
    decreases ns
  {
    if s in ReceiverSites(slot, ns[0]) {
      at, x := ReceiverSits(slot, ns[0], s);
    } else {
      at, x := AnyReceiverSits(slot, ns[1..], s);
    }
  }

  // ---- Rewriting in place ----

  lemma {:induction false} SitsWalked(slot: Slot, n: Node, at: Slot, x: Node)
    requires Sits(slot, n, at, x)
    ensures at != Skipped
    decreases n
  {
    if !(at == slot && x == n) {
      match n
      case Ident(_, _, _) =>
      case Field(y, _, _) => SitsWalked(Spliced, y, at, x);
      case Call(callee, _, _, args, _) =>
        if Sits(Spliced, callee, at, x) {
          SitsWalked(Spliced, callee, at, x);
        } else {
          AnySitsWalked(Spliced, args, at, x);
        }
      case MethodCall(recv, _, _, _, args, _) =>
        if Sits(Spliced, recv, at, x) {
          SitsWalked(Spliced, recv, at, x);
        } else {
          AnySitsWalked(Spliced, args, at, x);
        }
      case Shape(tag, _, kids, _) => AnySitsWalked(KidSlot(slot, tag), kids, at, x);
    }
  }

  lemma {:induction false} AnySitsWalked(slot: Slot, ns: seq<Node>, at: Slot, x: Node)
    requires AnySits(slot, ns, at, x)
    ensures at != Skipped
    decreases ns
  {
    if Sits(slot, ns[0], at, x) {
      SitsWalked(slot, ns[0], at, x);
    } else {
      AnySitsWalked(slot, ns[1..], at, x);
    }
  }

  /** What cannot vanish with a callee that is replaced. */
  ghost predicate Stays(t: Tables, x: Node) {
    x.Call? || x.MethodCall? || (t.bare == map[] && t.qual == map[])
  }

  /** Where a node sat, its rewriting sits. */
  lemma {:induction false} RewrittenSits(t: Tables, slot: Slot, n: Node, at: Slot, x: Node)
    requires Sits(slot, n, at, x) && Stays(t, x)
    ensures exists at' :: Sits(slot, Rewrite(t, slot, n), at', Rewrite(t, at, x))
    decreases n
  {
    var n' := Rewrite(t, slot, n);
    if at == slot && x == n {
      assert Sits(slot, n', slot, n');
    } else {
      match n
      case Ident(_, _, _) =>
      case Field(y, _, _) =>
        RewrittenSits(t, Spliced, y, at, x);
        var at' :| Sits(Spliced, Rewrite(t, Spliced, y), at', Rewrite(t, at, x));
        assert Sits(slot, n', at', Rewrite(t, at, x));
      case Call(callee, _, _, args, _) =>
        if Sits(Spliced, callee, at, x) {
          NotReplaced(t, callee, at, x);
          RewrittenSits(t, Spliced, callee, at, x);
          var at' :| Sits(Spliced, Rewrite(t, Spliced, callee), at', Rewrite(t, at, x));
          assert Sits(slot, n', at', Rewrite(t, at, x));
        } else {
          AnyRewrittenSits(t, Spliced, args, at, x);
          var at' :| AnySits(Spliced, RewriteAll(t, Spliced, args), at', Rewrite(t, at, x));
          assert Sits(slot, n', at', Rewrite(t, at, x));
        }
      case MethodCall(recv, _, _, _, args, _) =>
        MethodPartSits(t, slot, n, at, x);
      case Shape(tag, _, kids, _) =>
        AnyRewrittenSits(t, KidSlot(slot, tag), kids, at, x);
        var at' :| AnySits(KidSlot(slot, tag), RewriteAll(t, KidSlot(slot, tag), kids), at', Rewrite(t, at, x));
        assert Sits(slot, n', at', Rewrite(t, at, x));
    }
  }

  /** A callee with a call in it is not spelled out by name. */
  lemma {:induction false} NotReplaced(t: Tables, callee: Node, at: Slot, x: Node)
    requires Sits(Spliced, callee, at, x) && Stays(t, x)
    ensures SpelledTarget(t, callee) == None
  {
    if callee.Field? && callee.x.Ident? {
      assert !Below(Spliced, callee.x, at, x);
      assert Sits(Spliced, callee.x, at, x) ==> x == callee.x;
    }
  }

  lemma {:induction false} MethodPartSits(t: Tables, slot: Slot, n: Node, at: Slot, x: Node)
    requires slot != Skipped && n.MethodCall? && Below(slot, n, at, x) && Stays(t, x)
    ensures exists at' :: Sits(slot, Rewrite(t, slot, n), at', Rewrite(t, at, x))
    decreases n, 0
  {
    var recv', args' := Rewrite(t, Spliced, n.recv), RewriteAll(t, Spliced, n.args);
    var n', x' := Rewrite(t, slot, n), Rewrite(t, at, x);
    assert ([recv'] + args')[1..] == args';
    if Sits(Spliced, n.recv, at, x) {
      RewrittenSits(t, Spliced, n.recv, at, x);
      var at' :| Sits(Spliced, recv', at', x');
      assert AnySits(Spliced, [recv'] + args', at', x');
      assert Below(slot, n', at', x');
      assert Sits(slot, n', at', x');
    } else {
      AnyRewrittenSits(t, Spliced, n.args, at, x);
      var at' :| AnySits(Spliced, args', at', x');
      assert AnySits(Spliced, [recv'] + args', at', x');
      assert Below(slot, n', at', x');
      assert Sits(slot, n', at', x');
    }
  }

  lemma {:induction false} AnyRewrittenSits(t: Tables, slot: Slot, ns: seq<Node>, at: Slot, x: Node)
    requires AnySits(slot, ns, at, x) && Stays(t, x)
    ensures exists at' :: AnySits(slot, RewriteAll(t, slot, ns), at', Rewrite(t, at, x))
    decreases ns
  {
    var ns' := RewriteAll(t, slot, ns);
    assert ns'[1..] == RewriteAll(t, slot, ns[1..]);
    if Sits(slot, ns[0], at, x) {
      RewrittenSits(t, slot, ns[0], at, x);
      var at' :| Sits(slot, Rewrite(t, slot, ns[0]), at', Rewrite(t, at, x));
      assert AnySits(slot, ns', at', Rewrite(t, at, x));
    } else {
      AnyRewrittenSits(t, slot, ns[1..], at, x);
      var at' :| AnySits(slot, RewriteAll(t, slot, ns[1..]), at', Rewrite(t, at, x));
      assert AnySits(slot, ns', at', Rewrite(t, at, x));
    }
  }
}
