/**
 Numbering the nodes of a syntax graph in place.  Nodes may be shared; existing numbers are kept and
 new ones continue after the largest, in 32-bit arithmetic.
 */
module Ids {

  const LIMIT := 0x1_0000_0000

  type Id = x: int | 0 <= x < LIMIT

  function Next(x: Id): Id {
    (x + 1) % LIMIT
  }

  /** `numbered` tells whether the node carries an ID; `rank` witnesses that children do not lead back. */
  class AstNode {
    var id: Id
    const numbered: bool
    const kids: seq<AstNode>
    ghost const rank: nat

    constructor (numbered: bool, kids: seq<AstNode>, ghost rank: nat, id: Id)
      ensures this.numbered == numbered && this.kids == kids && this.rank == rank && this.id == id
    {
      this.numbered, this.kids, this.rank, this.id := numbered, kids, rank, id;
    }
  }

  ghost predicate Acyclic(n: AstNode)
    decreases n.rank
  {
    forall i :: 0 <= i < |n.kids| ==> n.kids[i].rank < n.rank && Acyclic(n.kids[i])
  }

  /** The nodes in the order the walk comes by them; a shared node comes up once per way to it. */
  ghost function Visits(n: AstNode): seq<AstNode>
    requires Acyclic(n)
    decreases n.rank, |n.kids| + 1
  {
    [n] + VisitsBelow(n, |n.kids|)
  }

  /** What is visited below a node's first `i` children. */
  ghost function VisitsBelow(n: AstNode, i: nat): seq<AstNode>
    requires Acyclic(n) && i <= |n.kids|
    decreases n.rank, i
  {
    if i == 0 then [] else VisitsBelow(n, i - 1) + Visits(n.kids[i - 1])
  }

  ghost function Nodes(n: AstNode): set<AstNode>
    requires Acyclic(n)
  {
    set m | m in Visits(n)
  }

  lemma {:induction false} KidNodes(n: AstNode, i: nat)
    requires Acyclic(n) && i < |n.kids|
    ensures Nodes(n.kids[i]) <= Nodes(n)
  {
    BelowNodes(n, i, |n.kids|);
  }

  lemma {:induction false} BelowNodes(n: AstNode, i: nat, j: nat)
    requires Acyclic(n) && i < j <= |n.kids|
    ensures forall m :: m in Visits(n.kids[i]) ==> m in VisitsBelow(n, j)
    decreases j
  {
    if i < j - 1 {
      BelowNodes(n, i, j - 1);
    }
  }

  // ---- Document order ----

  /** Child numbers that lead somewhere from the node. */
  ghost predicate Leads(n: AstNode, path: seq<nat>)
    decreases |path|
  {
    path == [] || (path[0] < |n.kids| && Leads(n.kids[path[0]], path[1..]))
  }

  ghost function At(n: AstNode, path: seq<nat>): AstNode
    requires Leads(n, path)
    decreases |path|
  {
    if path == [] then n else At(n.kids[path[0]], path[1..])
  }

  /** A path comes before its extensions, and before those that turn off to a later child. */
  ghost predicate Precedes(p: seq<nat>, q: seq<nat>)
    decreases |p|
  {
    q != [] && (p == [] || p[0] < q[0] || (p[0] == q[0] && Precedes(p[1..], q[1..])))
  }

  /** The paths from a node that enter its first `i` children, in document order, and the nodes they lead to. */
  ghost predicate Below(n: AstNode, i: nat, paths: seq<seq<nat>>, nodes: seq<AstNode>) {
    && |paths| == |nodes|
    && (forall k :: 0 <= k < |paths| ==> paths[k] != [] && paths[k][0] < i && Leads(n, paths[k]) && At(n, paths[k]) == nodes[k])
    && (forall k, m :: 0 <= k < m < |paths| ==> Precedes(paths[k], paths[m]))
    && (forall p: seq<nat> :: p != [] && p[0] < i && Leads(n, p) ==> p in paths)
  }

  /** All paths from a node in document order, and the nodes they lead to. */
  ghost predicate InOrder(n: AstNode, paths: seq<seq<nat>>, nodes: seq<AstNode>) {
    && |paths| == |nodes|
    && (forall k :: 0 <= k < |paths| ==> Leads(n, paths[k]) && At(n, paths[k]) == nodes[k])
    && (forall k, m :: 0 <= k < m < |paths| ==> Precedes(paths[k], paths[m]))
    && (forall p: seq<nat> :: Leads(n, p) ==> p in paths)
  }

  ghost function Into(i: nat, paths: seq<seq<nat>>): (r: seq<seq<nat>>)
    ensures |r| == |paths| && forall k :: 0 <= k < |paths| ==> r[k] == [i] + paths[k]
  {
    seq(|paths|, k requires 0 <= k < |paths| => [i] + paths[k])
  }

  /** The walk comes by the nodes in document order, once per path. */
  lemma {:induction false} VisitsInOrder(n: AstNode) returns (paths: seq<seq<nat>>)
    requires Acyclic(n)
    ensures InOrder(n, paths, Visits(n))
    decreases n.rank, |n.kids| + 1
  {
    assert Visits(n) == [n] + VisitsBelow(n, |n.kids|);
    hide Below, InOrder, VisitsBelow, Visits;
    var below := VisitsBelowInOrder(n, |n.kids|);
    paths := [[]] + below;
    RootFirst(n, below, VisitsBelow(n, |n.kids|));
  }

  lemma {:induction false} RootFirst(n: AstNode, below: seq<seq<nat>>, nodes: seq<AstNode>)
    requires Below(n, |n.kids|, below, nodes)
    ensures InOrder(n, [[]] + below, [n] + nodes)
  {
    var root: seq<nat> := [];
    var paths := [root] + below;
    hide Acyclic;
    assert Leads(n, root) && At(n, root) == n;
    forall k | 0 <= k < |paths|
      ensures Leads(n, paths[k]) && At(n, paths[k]) == ([n] + nodes)[k]
    {
      assert k > 0 ==> paths[k] == below[k - 1];
    }
    forall k, m | 0 <= k < m < |paths|
      ensures Precedes(paths[k], paths[m])
    {
      assert paths[m] == below[m - 1];
      assert k > 0 ==> paths[k] == below[k - 1];
    }
    forall p: seq<nat> | Leads(n, p)
      ensures p in paths
    {
      if p == [] {
        assert paths[0] == p;
      } else {
        assert p[0] < |n.kids| && p in below;
      }
    }
  }

  lemma {:induction false} VisitsBelowInOrder(n: AstNode, i: nat) returns (paths: seq<seq<nat>>)
    requires Acyclic(n) && i <= |n.kids|
    ensures Below(n, i, paths, VisitsBelow(n, i))
    decreases n.rank, i
  {
    hide Below, InOrder, Into;
    if i == 0 {
      paths := [];
      NothingBelow(n);
      assert VisitsBelow(n, 0) == [];
    } else {
      assert VisitsBelow(n, i) == VisitsBelow(n, i - 1) + Visits(n.kids[i - 1]);
      assert n.kids[i - 1].rank < n.rank && Acyclic(n.kids[i - 1]);
      hide VisitsBelow, Visits, Acyclic;
      var earlier := VisitsBelowInOrder(n, i - 1);
      var inner := VisitsInOrder(n.kids[i - 1]);
      paths := earlier + Into(i - 1, inner);
      BelowMore(n, i - 1, earlier, VisitsBelow(n, i - 1), inner, Visits(n.kids[i - 1]));
    }
  }

  lemma {:induction false} NothingBelow(n: AstNode)
    ensures Below(n, 0, [], [])
  {
  }

  lemma {:induction false} BelowMore(n: AstNode, i: nat, earlier: seq<seq<nat>>, before: seq<AstNode>, inner: seq<seq<nat>>, nodes: seq<AstNode>)
    requires i < |n.kids| && Below(n, i, earlier, before) && InOrder(n.kids[i], inner, nodes)
    ensures Below(n, i + 1, earlier + Into(i, inner), before + nodes)
  {
    var more := Into(i, inner);
    var paths := earlier + more;
    assert forall k :: 0 <= k < |more| ==> more[k][1..] == inner[k] && more[k][0] == i;
    forall k | 0 <= k < |paths|
      ensures paths[k] != [] && paths[k][0] < i + 1 && Leads(n, paths[k]) && At(n, paths[k]) == (before + nodes)[k]
    {
      if k >= |earlier| {
        assert paths[k] == more[k - |earlier|];
      }
    }
    forall k, m | 0 <= k < m < |paths|
      ensures Precedes(paths[k], paths[m])
    {
      if k >= |earlier| {
        assert Precedes(inner[k - |earlier|], inner[m - |earlier|]);
      } else if m >= |earlier| {
        assert paths[m] == more[m - |earlier|];
      }
    }
    forall p: seq<nat> | p != [] && p[0] < i + 1 && Leads(n, p)
      ensures p in paths
    {
      if p[0] < i {
        assert p in earlier;
      } else {
        assert p[0] == i && Leads(n.kids[i], p[1..]) && p[1..] in inner;
        var k :| 0 <= k < |inner| && inner[k] == p[1..];
        assert p == [i] + p[1..] == more[k] == paths[|earlier| + k];
      }
    }
  }

  // ---- What the two walks compute ----

  ghost function Unnumbered(ids: map<AstNode, Id>): set<AstNode> {
    set m | m in ids && m.numbered && ids[m] == 0
  }

  /** The largest ID seen. */
  ghost function MaxId(vs: seq<AstNode>, ids: map<AstNode, Id>): Id {
    if vs == [] then 0
    else
      var m, rest := vs[|vs| - 1], MaxId(vs[..|vs| - 1], ids);
      if m in ids && m.numbered && ids[m] > rest then ids[m] else rest
  }

  /** The IDs after the walk, and the next one to give out. */
  ghost function Assign(vs: seq<AstNode>, ids: map<AstNode, Id>, next: Id): (map<AstNode, Id>, Id)
  {
    if vs == [] then (ids, next)
    else
      var (ids', next') := Assign(vs[..|vs| - 1], ids, next);
      var m := vs[|vs| - 1];
      if m in Unnumbered(ids') then (ids'[m := next'], Next(next')) else (ids', next')
  }

  /** The unnumbered nodes in the order of their first visit. */
  ghost function Fresh(vs: seq<AstNode>, unset: set<AstNode>): seq<AstNode> {
    if vs == [] then []
    else
      var front, m := Fresh(vs[..|vs| - 1], unset), vs[|vs| - 1];
      if m in unset && m !in front then front + [m] else front
  }

  ghost function Position(s: seq<AstNode>, m: AstNode): (i: nat)
    requires m in s
    ensures i < |s| && s[i] == m && forall k :: 0 <= k < i ==> s[k] != m
  {
    if s[0] == m then 0 else 1 + Position(s[1..], m)
  }

  // ---- The walks in place ----

  ghost function IdsOf(nodes: set<AstNode>): map<AstNode, Id>
    reads nodes
  {
    map m | m in nodes :: m.id
  }

  lemma {:induction false} MaxIdSnoc(vs: seq<AstNode>, m: AstNode, ids: map<AstNode, Id>)
    ensures MaxId(vs + [m], ids) == if m in ids && m.numbered && ids[m] > MaxId(vs, ids) then ids[m] else MaxId(vs, ids)
  {
  }

  lemma {:induction false} AssignSnoc(vs: seq<AstNode>, m: AstNode, ids: map<AstNode, Id>, next: Id)
    ensures var (ids', next') := Assign(vs, ids, next);
      Assign(vs + [m], ids, next) == if m in Unnumbered(ids') then (ids'[m := next'], Next(next')) else (ids', next')
  {
  }

  /** The largest ID in the graph below a node and in what was scanned before. */
  method Scan(n: AstNode, max0: Id, ghost all: set<AstNode>, ghost before: seq<AstNode>) returns (max: Id)
    requires Acyclic(n) && Nodes(n) <= all && max0 == MaxId(before, IdsOf(all))
    ensures max == MaxId(before + Visits(n), IdsOf(all))
    decreases n.rank
  {
    hide MaxId;
    max := max0;
    assert n in Nodes(n);
    MaxIdSnoc(before, n, IdsOf(all));
    if n.numbered && n.id > max {
      max := n.id;
    }
    ghost var vs := before + [n];
    assert vs + VisitsBelow(n, 0) == vs;
    for i := 0 to |n.kids|
      invariant max == MaxId(vs + VisitsBelow(n, i), IdsOf(all))
    {
      KidNodes(n, i);
      ghost var sofar := vs + VisitsBelow(n, i);
      max := Scan(n.kids[i], max, all, sofar);
      assert sofar + Visits(n.kids[i]) == vs + VisitsBelow(n, i + 1);
    }
    assert vs + VisitsBelow(n, |n.kids|) == before + Visits(n);
  }

  /** Numbers the unnumbered nodes below a node, after what was walked before. */
  method Walk(n: AstNode, next0: Id, ghost all: set<AstNode>, ghost before: seq<AstNode>, ghost ids: map<AstNode, Id>, ghost first: Id) returns (next: Id)
    requires Acyclic(n) && Nodes(n) <= all && (IdsOf(all), next0) == Assign(before, ids, first)
    modifies all
    ensures (IdsOf(all), next) == Assign(before + Visits(n), ids, first)
    decreases n.rank
  {
    hide Assign;
    next := next0;
    assert n in Nodes(n);
    AssignSnoc(before, n, ids, first);
    ghost var vs, was := before + [n], IdsOf(all);
    if n.numbered && n.id == 0 {
      n.id := next;
      next := Next(next);
      assert IdsOf(all) == was[n := next0];
    }
    assert vs + VisitsBelow(n, 0) == vs;
    for i := 0 to |n.kids|
      invariant (IdsOf(all), next) == Assign(vs + VisitsBelow(n, i), ids, first)
    {
      KidNodes(n, i);
      ghost var sofar := vs + VisitsBelow(n, i);
      next := Walk(n.kids[i], next, all, sofar, ids, first);
      assert sofar + Visits(n.kids[i]) == vs + VisitsBelow(n, i + 1);
    }
    assert vs + VisitsBelow(n, |n.kids|) == before + Visits(n);
  }

  // ---- What the numbering is worth ----

  lemma {:induction false} FreshMember(vs: seq<AstNode>, unset: set<AstNode>, m: AstNode)
    ensures m in Fresh(vs, unset) <==> m in vs && m in unset
  {
    if vs != [] {
      FreshMember(vs[..|vs| - 1], unset, m);
      assert vs == vs[..|vs| - 1] + [vs[|vs| - 1]];
    }
  }

  /** Fresh nodes come in the order of their first visits. */
  lemma {:induction false} FreshInOrder(vs: seq<AstNode>, unset: set<AstNode>, i: nat, j: nat)
    requires i < j < |Fresh(vs, unset)|
    ensures Fresh(vs, unset)[i] in vs && Fresh(vs, unset)[j] in vs
    ensures Position(vs, Fresh(vs, unset)[i]) < Position(vs, Fresh(vs, unset)[j])
  {
    var front, m, f := vs[..|vs| - 1], vs[|vs| - 1], Fresh(vs, unset);
    assert vs == front + [m];
    FreshMember(front, unset, f[i]);
    PositionPrefix(front, m, f[i]);
    if j < |Fresh(front, unset)| {
      FreshInOrder(front, unset, i, j);
      PositionPrefix(front, m, f[j]);
    } else {
      FreshMember(front, unset, m);
      assert forall k :: 0 <= k < |front| ==> vs[k] in front;
    }
  }

  lemma {:induction false} PositionPrefix(front: seq<AstNode>, m: AstNode, x: AstNode)
    requires x in front
    ensures x in front + [m] && Position(front + [m], x) == Position(front, x)
  {
    var s := front + [m];
    assert s[Position(front, x)] == x;
    assert Position(s, x) < |front| ==> front[Position(s, x)] == x;
  }

  /** As long as the numbers do not run out, the k-th fresh node gets the k-th number and nothing else changes. */
  lemma {:induction false} AssignNumbers(vs: seq<AstNode>, ids: map<AstNode, Id>, next: Id)
    requires next > 0 && next + |Fresh(vs, Unnumbered(ids))| <= LIMIT
    ensures var (ids', next') := Assign(vs, ids, next); var news := Fresh(vs, Unnumbered(ids));
      && ids'.Keys == ids.Keys && next' == (next + |news|) % LIMIT
      && (forall k :: 0 <= k < |news| ==> news[k] in ids' && ids'[news[k]] == next + k)
      && (forall m :: m in ids && m !in news ==> ids'[m] == ids[m])
  {
    if vs != [] {
      AssignNumbers(vs[..|vs| - 1], ids, next);
      LastNumbered(vs, ids, next);
    }
  }

  lemma {:induction false} LastNumbered(vs: seq<AstNode>, ids: map<AstNode, Id>, next: Id)
    requires vs != [] && next > 0 && next + |Fresh(vs, Unnumbered(ids))| <= LIMIT
    requires var (ids', next') := Assign(vs[..|vs| - 1], ids, next); var news := Fresh(vs[..|vs| - 1], Unnumbered(ids));
      && ids'.Keys == ids.Keys && next' == (next + |news|) % LIMIT
      && (forall k :: 0 <= k < |news| ==> news[k] in ids' && ids'[news[k]] == next + k)
      && (forall m :: m in ids && m !in news ==> ids'[m] == ids[m])
    ensures vs[|vs| - 1] in Unnumbered(Assign(vs[..|vs| - 1], ids, next).0) <==>
            vs[|vs| - 1] in Unnumbered(ids) && vs[|vs| - 1] !in Fresh(vs[..|vs| - 1], Unnumbered(ids))
  {
  }

  /** No node of `vs` is left without a number, and numbers given out are new and all different. */
  ghost predicate WellNumbered(vs: seq<AstNode>, was: map<AstNode, Id>, ids: map<AstNode, Id>) {
    && ids.Keys == was.Keys
    && (forall i :: 0 <= i < |vs| && vs[i] in ids && vs[i].numbered ==> ids[vs[i]] != 0)
    && (forall m :: m in was && (was[m] != 0 || !m.numbered || m !in vs) ==> ids[m] == was[m])
    && (forall i, j :: 0 <= i < |vs| && 0 <= j < |vs| && vs[i] != vs[j] ==> NumbersDiffer(was, ids, vs[i], vs[j]))
  }

  /** A number given out is not another node's number. */
  ghost predicate NumbersDiffer(was: map<AstNode, Id>, ids: map<AstNode, Id>, m: AstNode, k: AstNode) {
    m in was && k in was && m in ids && k in ids && m.numbered && k.numbered && was[m] == 0 ==> ids[m] != ids[k]
  }

  lemma {:induction false} MaxIdBounds(vs: seq<AstNode>, ids: map<AstNode, Id>)
    ensures forall i :: 0 <= i < |vs| && vs[i] in ids && vs[i].numbered ==> ids[vs[i]] <= MaxId(vs, ids)
    ensures MaxId(vs, ids) == 0 || exists i :: 0 <= i < |vs| && vs[i] in ids && vs[i].numbered && ids[vs[i]] == MaxId(vs, ids)
  {
    if vs != [] {
      var front := vs[..|vs| - 1];
      MaxIdBounds(front, ids);
      if MaxId(vs, ids) == MaxId(front, ids) && MaxId(vs, ids) != 0 {
        var i :| 0 <= i < |front| && front[i] in ids && front[i].numbered && ids[front[i]] == MaxId(front, ids);
        assert vs[i] == front[i];
      } else if MaxId(vs, ids) != 0 {
        assert ids[vs[|vs| - 1]] == MaxId(vs, ids);
      }
    }
  }

  /** The number of a node after the walk: its own, or one above all old ones by its place among the fresh. */
  lemma {:induction false} NumberAt(vs: seq<AstNode>, ids: map<AstNode, Id>, m: AstNode)
    requires MaxId(vs, ids) + |Fresh(vs, Unnumbered(ids))| < LIMIT && m in ids
    ensures var ids' := Assign(vs, ids, Next(MaxId(vs, ids))).0; var news := Fresh(vs, Unnumbered(ids));
      && ids'.Keys == ids.Keys && m in ids'
      && ids'[m] == if m in news then MaxId(vs, ids) + 1 + Position(news, m) else ids[m]
  {
    var news := Fresh(vs, Unnumbered(ids));
    if news == [] {
      NothingFresh(vs, ids, Next(MaxId(vs, ids)));
    } else {
      AssignNumbers(vs, ids, Next(MaxId(vs, ids)));
    }
  }

  /** Numbering from the largest ID on numbers well. */
  lemma {:induction false} NumbersWell(vs: seq<AstNode>, ids: map<AstNode, Id>)
    requires MaxId(vs, ids) + |Fresh(vs, Unnumbered(ids))| < LIMIT
    ensures WellNumbered(vs, ids, Assign(vs, ids, Next(MaxId(vs, ids))).0)
  {
    hide MaxId, Assign, Fresh, Position;
    var unset := Unnumbered(ids);
    var news, ids' := Fresh(vs, unset), Assign(vs, ids, Next(MaxId(vs, ids))).0;
    MaxIdBounds(vs, ids);
    AssignKeys(vs, ids, Next(MaxId(vs, ids)));
    forall m | m in ids && (ids[m] != 0 || !m.numbered || m !in vs)
      ensures ids'[m] == ids[m]
    {
      NumberAt(vs, ids, m);
      FreshMember(vs, unset, m);
    }
    forall i | 0 <= i < |vs| && vs[i] in ids && vs[i].numbered
      ensures ids'[vs[i]] != 0
    {
      NumberAt(vs, ids, vs[i]);
      FreshMember(vs, unset, vs[i]);
    }
    forall i, j | 0 <= i < |vs| && 0 <= j < |vs| && vs[i] != vs[j] && vs[i] in ids && vs[j] in ids
      ensures NumbersDiffer(ids, ids', vs[i], vs[j])
    {
      NumberAt(vs, ids, vs[i]);
      NumberAt(vs, ids, vs[j]);
      FreshMember(vs, unset, vs[i]);
      FreshMember(vs, unset, vs[j]);
    }
  }

  lemma {:induction false} AssignKeys(vs: seq<AstNode>, ids: map<AstNode, Id>, next: Id)
    ensures Assign(vs, ids, next).0.Keys == ids.Keys
  {
    if vs != [] {
      AssignKeys(vs[..|vs| - 1], ids, next);
    }
  }

  /** Where nothing is unnumbered, nothing changes. */
  lemma {:induction false} NothingFresh(vs: seq<AstNode>, ids: map<AstNode, Id>, next: Id)
    requires Fresh(vs, Unnumbered(ids)) == []
    ensures Assign(vs, ids, next) == (ids, next)
  {
    if vs != [] {
      NothingFresh(vs[..|vs| - 1], ids, next);
    }
  }

  /** A second run changes nothing. */
  lemma {:induction false} Idempotent(vs: seq<AstNode>, was: map<AstNode, Id>, ids: map<AstNode, Id>, next: Id)
    requires WellNumbered(vs, was, ids)
    ensures Assign(vs, ids, next).0 == ids
  {
    var unset := Unnumbered(ids);
    var f := Fresh(vs, unset);
    if f != [] {
      FreshMember(vs, unset, f[0]);
      assert false;
    }
    NothingFresh(vs, ids, next);
  }

  /**
   Numbers a graph in place.  If the numbers do not run out, every node gets one, old ones are kept, and
   the fresh nodes are numbered consecutively after the largest old number, by first visit.
   */
  method AssignIDs(root: AstNode)
    requires Acyclic(root)
    modifies Nodes(root)
    ensures var was := old(IdsOf(Nodes(root))); var vs := Visits(root); var news := Fresh(vs, Unnumbered(was));
      && IdsOf(Nodes(root)) == Assign(vs, was, Next(MaxId(vs, was))).0
      && (MaxId(vs, was) + |news| < LIMIT ==>
            && WellNumbered(vs, was, IdsOf(Nodes(root)))
            && (forall k :: 0 <= k < |news| ==> news[k] in IdsOf(Nodes(root)) && IdsOf(Nodes(root))[news[k]] == MaxId(vs, was) + 1 + k))
  {
    hide Visits, Assign, Fresh, MaxId, WellNumbered;
    ghost var all, vs := Nodes(root), Visits(root);
    ghost var was := IdsOf(all);
    assert MaxId([], was) == 0 && Assign([], was, 0) == (was, 0) by { NothingVisited(was, 0); }
    var max := Scan(root, 0, all, []);
    assert [] + vs == vs;
    ghost var first := Next(max);
    NothingVisited(was, first);
    var next := Walk(root, Next(max), all, [], was, first);
    ghost var news := Fresh(vs, Unnumbered(was));
    if max + |news| < LIMIT {
      NumbersWell(vs, was);
      if news != [] {
        AssignNumbers(vs, was, first);
      }
    }
  }

  lemma {:induction false} NothingVisited(ids: map<AstNode, Id>, next: Id)
    ensures MaxId([], ids) == 0 && Assign([], ids, next) == (ids, next)
  {
  }

  lemma {:induction false} Untouched(vs: seq<AstNode>, ids: map<AstNode, Id>, next: Id, m: AstNode)
    requires m in ids && m !in vs
    ensures m in Assign(vs, ids, next).0 && Assign(vs, ids, next).0[m] == ids[m]
  {
    if vs != [] {
      Untouched(vs[..|vs| - 1], ids, next, m);
    }
  }

  /** Without sharing the k-th fresh node gets the k-th number, counted round. */
  lemma {:induction false} TreeNumbers(vs: seq<AstNode>, ids: map<AstNode, Id>, next: Id)
    requires (forall i :: 0 <= i < |vs| ==> vs[i] in ids) && (forall i, j :: 0 <= i < j < |vs| ==> vs[i] != vs[j])
    ensures var r := Assign(vs, ids, next); var news := Fresh(vs, Unnumbered(ids));
      && r.1 == (next + |news|) % LIMIT
      && (forall k :: 0 <= k < |news| ==> news[k] in r.0 && r.0[news[k]] == (next + k) % LIMIT)
  {
    if vs != [] {
      var front, m := vs[..|vs| - 1], vs[|vs| - 1];
      assert forall i :: 0 <= i < |front| ==> front[i] == vs[i];
      TreeNumbers(front, ids, next);
      FreshMember(front, Unnumbered(ids), m);
      Untouched(front, ids, next, m);
      TreeStep(front, m, ids, next);
      assert vs == front + [m];
      RoundAdd(next, |Fresh(front, Unnumbered(ids))|);
      hide Assign, Fresh;
    }
  }

  /** One more node that was not visited before takes the next number if it has none. */
  lemma {:induction false} TreeStep(front: seq<AstNode>, m: AstNode, ids: map<AstNode, Id>, next: Id)
    requires m in ids && m in Assign(front, ids, next).0 && Assign(front, ids, next).0[m] == ids[m]
    requires m !in Fresh(front, Unnumbered(ids))
    ensures var r, r' := Assign(front, ids, next), Assign(front + [m], ids, next);
      var news, news' := Fresh(front, Unnumbered(ids)), Fresh(front + [m], Unnumbered(ids));
      if m in Unnumbered(ids) then news' == news + [m] && r' == (r.0[m := r.1], Next(r.1)) else news' == news && r' == r
  {
    assert (front + [m])[..|front|] == front;
  }

  lemma {:induction false} RoundAdd(next: Id, k: nat)
    ensures Next((next + k) % LIMIT) == (next + k + 1) % LIMIT
  {
  }

  /** Without sharing, every node ends up numbered exactly when the numbers do not run out. */
  lemma {:induction false} TreeNumberedIff(vs: seq<AstNode>, ids: map<AstNode, Id>)
    requires (forall i :: 0 <= i < |vs| ==> vs[i] in ids) && (forall i, j :: 0 <= i < j < |vs| ==> vs[i] != vs[j])
    ensures var ids' := Assign(vs, ids, Next(MaxId(vs, ids))).0;
      (forall i :: 0 <= i < |vs| && vs[i].numbered && vs[i] in ids' ==> ids'[vs[i]] != 0)
        <==> MaxId(vs, ids) + |Fresh(vs, Unnumbered(ids))| < LIMIT
  {
    var max, news := MaxId(vs, ids), Fresh(vs, Unnumbered(ids));
    if max + |news| < LIMIT {
      NumbersWell(vs, ids);
    } else {
      TreeNumbers(vs, ids, Next(max));
      var k := LIMIT - 1 - max;
      FreshMember(vs, Unnumbered(ids), news[k]);
      var i :| 0 <= i < |vs| && vs[i] == news[k];
      assert (Next(max) + k) % LIMIT == 0;
    }
  }

  // ---- When the numbers run out ----

  /** Fresh nodes all get numbers above the old ones, no two the same. */
  ghost predicate NumberedAbove(vs: seq<AstNode>, was: map<AstNode, Id>, ids: map<AstNode, Id>) {
    var news := Fresh(vs, Unnumbered(was));
    && (forall k :: 0 <= k < |news| ==> news[k] in ids && ids[news[k]] > MaxId(vs, was))
    && (forall j, k :: 0 <= j < k < |news| && news[j] in ids && news[k] in ids ==> ids[news[j]] != ids[news[k]])
  }

  /** Different numbers above `low` and below `high` are no more than there is room for. */
  lemma {:induction false} RoomFor(s: seq<int>, low: int, high: int)
    requires low <= high
    requires forall i :: 0 <= i < |s| ==> low < s[i] < high
    requires forall i, j :: 0 <= i < j < |s| ==> s[i] != s[j]
    ensures |s| == 0 || |s| <= high - low - 1
    decreases high - low
  {
    if s != [] {
      if i :| 0 <= i < |s| && s[i] == high - 1 {
        var rest := s[..i] + s[i + 1..];
        assert forall k :: 0 <= k < |rest| ==> rest[k] == if k < i then s[k] else s[k + 1];
        RoomFor(rest, low, high - 1);
      } else {
        assert s[0] < high - 1;
        RoomFor(s, low, high - 1);
      }
    }
  }

  /** On every graph, shared nodes included: fresh nodes are numbered apart and above exactly when the numbers do not run out. */
  lemma {:induction false} NumberedAboveIff(vs: seq<AstNode>, ids: map<AstNode, Id>)
    ensures NumberedAbove(vs, ids, Assign(vs, ids, Next(MaxId(vs, ids))).0) <==> MaxId(vs, ids) + |Fresh(vs, Unnumbered(ids))| < LIMIT
  {
    hide MaxId, Assign, Fresh;
    var max, news, ids' := MaxId(vs, ids), Fresh(vs, Unnumbered(ids)), Assign(vs, ids, Next(MaxId(vs, ids))).0;
    if max + |news| < LIMIT {
      if news != [] {
        AssignNumbers(vs, ids, Next(max));
      }
    } else if NumberedAbove(vs, ids, ids') {
      var s := seq(|news|, k requires 0 <= k < |news| => if news[k] in ids' then ids'[news[k]] as int else 0);
      RoomFor(s, max, LIMIT);
    }
  }

  /** One fresh node below one that has the last number: the fresh node ends at 0, the mark of a node without one. */
  method LastNumberWraps() returns (leaf: AstNode)
    ensures leaf.numbered && leaf.id == 0
  {
    leaf := new AstNode(true, [], 0, 0);
    var root := new AstNode(true, [leaf], 1, LIMIT - 1);
    assert Visits(leaf) == [leaf] + VisitsBelow(leaf, 0) == [leaf];
    assert VisitsBelow(root, 1) == VisitsBelow(root, 0) + Visits(root.kids[0]) == [leaf];
    assert Visits(root) == [root] + VisitsBelow(root, 1) == [root, leaf];
    ghost var was := IdsOf(Nodes(root));
    AssignIDs(root);
    WrapsAt(root, leaf, was);
    assert IdsOf(Nodes(root))[leaf] == leaf.id;
  }

  lemma {:induction false} WrapsAt(root: AstNode, leaf: AstNode, was: map<AstNode, Id>)
    requires root.numbered && leaf.numbered && root != leaf && root in was && leaf in was && was[root] == LIMIT - 1 && was[leaf] == 0
    ensures var ids := Assign([root, leaf], was, Next(MaxId([root, leaf], was))).0; leaf in ids && ids[leaf] == 0
  {
    MaxIdSnoc([], root, was);
    MaxIdSnoc([root], leaf, was);
    assert [] + [root] == [root] && [root] + [leaf] == [root, leaf];
    AssignSnoc([], root, was, 0);
    AssignSnoc([root], leaf, was, 0);
  }
}
