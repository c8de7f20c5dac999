/**
 Applying textual edits from right to left, skipping those that do not fit, as both the
 semantic and the structural repair phases do.
 */
module Edits {

  import opened StableSort

  /** What an edit reports to the user, placed by line and column. */
  datatype Change = Change(line: int, column: int, kind: string)

  /** Replace the source between `start` and `end` by `text`. */
  datatype Edit = Edit(start: int, end: int, text: string, change: Change)

  predicate Later(a: Edit, b: Edit) {
    if a.start != b.start then a.start > b.start else a.end > b.end
  }

  predicate Earlier(a: Change, b: Change) {
    if a.line != b.line then a.line < b.line else a.column < b.column
  }

  predicate InBounds(n: nat, e: Edit) {
    0 <= e.start <= e.end <= n
  }

  /** One of the two ends before the other starts. */
  predicate Disjoint(a: Edit, b: Edit) {
    a.end <= b.start || b.end <= a.start
  }

  // ---- Simultaneous substitution ----

  /** Edits from left to right, each in bounds and starting no earlier than the previous one ends. */
  ghost predicate Placed(n: nat, pos: nat, es: seq<Edit>)
    decreases |es|
  {
    if es == [] then pos <= n
    else pos <= es[0].start && InBounds(n, es[0]) && Placed(n, es[0].end, es[1..])
  }

  /** The source from `pos` on, with every edit replaced by its text at once. */
  ghost function Substitute(src: string, pos: nat, es: seq<Edit>): string
    requires Placed(|src|, pos, es)
    decreases |es|
  {
    if es == [] then src[pos..]
    else src[pos..es[0].start] + es[0].text + Substitute(src, es[0].end, es[1..])
  }

  /** Characters the edits add, less those they remove. */
  function Growth(es: seq<Edit>): int {
    if es == [] then 0 else |es[0].text| - (es[0].end - es[0].start) + Growth(es[1..])
  }

  lemma {:induction false} SubstituteLength(src: string, pos: nat, es: seq<Edit>)
    requires Placed(|src|, pos, es)
    ensures |Substitute(src, pos, es)| == |src| - pos + Growth(es)
    decreases |es|
  {
    if es != [] {
      SubstituteLength(src, es[0].end, es[1..]);
    }
  }

  /** Splicing one more edit to the left of all the others is substituting it together with them. */
  lemma {:induction false} SpliceLeft(src: string, e: Edit, es: seq<Edit>)
    requires Placed(|src|, 0, es) && InBounds(|src|, e) && (es != [] ==> e.end <= es[0].start)
    ensures Placed(|src|, 0, [e] + es)
    ensures var out := Substitute(src, 0, es);
      e.end <= |out| && out[..e.start] + e.text + out[e.end..] == Substitute(src, 0, [e] + es)
  {
  }

  // ---- The greedy choice, right to left ----

  /** Where the leftmost applied edit starts; one past the end of the source before any. */
  function LastStart(n: nat, taken: seq<Edit>): int {
    if taken == [] then n + 1 else taken[|taken| - 1].start
  }

  predicate Fits(n: nat, e: Edit, last: int) {
    InBounds(n, e) && e.end <= last
  }

  /** The edits applied among the first `k`, in the order applied. */
  function Taken(n: nat, es: seq<Edit>, k: nat): seq<Edit>
    requires k <= |es|
  {
    if k == 0 then []
    else
      var before := Taken(n, es, k - 1);
      if Fits(n, es[k - 1], LastStart(n, before)) then before + [es[k - 1]] else before
  }

  ghost predicate Descending(es: seq<Edit>) {
    Ordered(Later, es)
  }

  lemma {:induction false} LaterIsOrder()
    ensures StrictWeakOrder(Later) && StrictWeakOrder(Earlier)
  {
  }

  /** Everything taken is in bounds, came from the first `k`, and starts no earlier than `LastStart`. */
  lemma {:induction false} TakenFacts(n: nat, es: seq<Edit>, k: nat)
    requires k <= |es|
    ensures var t := Taken(n, es, k);
      && |t| <= k
      && (forall i :: 0 <= i < |t| ==> InBounds(n, t[i]) && LastStart(n, t) <= t[i].start)
      && (forall i, j :: 0 <= i < j < |t| ==> t[j].end <= t[i].start)
      && (forall i :: 0 <= i < |t| ==> exists m :: 0 <= m < k && es[m] == t[i])
  {
    if k > 0 {
      TakenFacts(n, es, k - 1);
      var before, t := Taken(n, es, k - 1), Taken(n, es, k);
      forall i | 0 <= i < |t|
        ensures exists m :: 0 <= m < k && es[m] == t[i]
      {
        if i < |before| {
          var m :| 0 <= m < k - 1 && es[m] == before[i];
          assert es[m] == t[i];
        }
      }
    }
  }

  /**
   In descending order, an edit is skipped exactly when it is out of bounds or overlaps an edit
   already applied.
   */
  lemma {:induction false} SkippedIff(n: nat, es: seq<Edit>, k: nat)
    requires Descending(es) && k < |es|
    ensures Taken(n, es, k + 1) == Taken(n, es, k) <==>
            !InBounds(n, es[k]) || exists a :: a in Taken(n, es, k) && !Disjoint(a, es[k])
  {
    var t, e := Taken(n, es, k), es[k];
    TakenFacts(n, es, k);
    if InBounds(n, e) && t != [] {
      var a := t[|t| - 1];
      var m :| 0 <= m < k && es[m] == a;
      assert !Later(e, a);
      assert a in t;
      if e.end <= a.start {
        forall b | b in t
          ensures Disjoint(b, e)
        {
          var i :| 0 <= i < |t| && t[i] == b;
        }
      }
    }
  }

  /** The applied edits, read back from left to right, are placed for simultaneous substitution. */
  lemma {:induction false} TakenPlaced(n: nat, es: seq<Edit>, k: nat)
    requires k <= |es|
    ensures Placed(n, 0, Reverse(Taken(n, es, k)))
    ensures Taken(n, es, k) != [] ==> Reverse(Taken(n, es, k))[0].start == LastStart(n, Taken(n, es, k))
  {
    if k > 0 {
      TakenPlaced(n, es, k - 1);
      var before, e := Taken(n, es, k - 1), es[k - 1];
      if Fits(n, e, LastStart(n, before)) {
        assert Reverse(before + [e]) == [e] + Reverse(before);
        assert ([e] + Reverse(before))[1..] == Reverse(before);
        assert Placed(n, e.end, Reverse(before)) by {
          if before == [] {
            assert Reverse(before) == [];
          }
        }
      }
    }
  }

  // ---- No choice of compatible edits is larger ----

  /** A set of positions whose edits are in bounds and pairwise disjoint. */
  ghost predicate Compatible(n: nat, es: seq<Edit>, pick: set<nat>) {
    && (forall i :: i in pick ==> i < |es| && InBounds(n, es[i]))
    && (forall i, j :: i in pick && j in pick && i < j && j < |es| ==> Disjoint(es[i], es[j]))
  }

  /** Some picked edit starts at or left of `last`. */
  ghost predicate Reaches(es: seq<Edit>, pick: set<nat>, last: int) {
    exists i :: i in pick && i < |es| && es[i].start <= last
  }

  lemma {:induction false} GreedyStep(n: nat, es: seq<Edit>, k: nat, pick: set<nat>)
    requires Descending(es) && k < |es| && forall i :: i in pick ==> i < k && InBounds(n, es[i])
    requires InBounds(n, es[k]) && forall i :: i in pick ==> Disjoint(es[i], es[k])
    requires if pick == {} then Taken(n, es, k) == [] else Reaches(es, pick, LastStart(n, Taken(n, es, k)))
    ensures Fits(n, es[k], LastStart(n, Taken(n, es, k)))
  {
  }

  lemma {:induction false} TakenReach(n: nat, es: seq<Edit>, k: nat)
    requires Descending(es) && k < |es| && Taken(n, es, k) != []
    ensures es[k].start <= LastStart(n, Taken(n, es, k))
  {
    TakenFacts(n, es, k);
    var t := Taken(n, es, k);
    var m :| 0 <= m < k && es[m] == t[|t| - 1];
    assert !Later(es[k], es[m]);
  }

  /** No more edits than the greedy ones, and with as many no further left. */
  ghost predicate Behind(n: nat, es: seq<Edit>, pick: set<nat>, t: seq<Edit>) {
    && |pick| <= |t|
    && (|pick| == |t| && pick != {} ==> Reaches(es, pick, LastStart(n, t)))
  }

  lemma {:induction false} GreedyPick(n: nat, es: seq<Edit>, k: nat, others: set<nat>)
    requires Descending(es) && k < |es| && Compatible(n, es, others + {k}) && forall i :: i in others ==> i < k
    requires Behind(n, es, others, Taken(n, es, k))
    ensures Behind(n, es, others + {k}, Taken(n, es, k + 1))
  {
    var t := Taken(n, es, k);
    assert |others + {k}| == |others| + 1;
    assert k in others + {k};
    if |others| == |t| {
      GreedyStep(n, es, k, others);
      assert |Taken(n, es, k + 1)| == |t| + 1;
    } else {
      TakenReach(n, es, k);
    }
  }

  /** Greedy stays ahead: it never has fewer edits, and with as many it reaches no further left. */
  lemma {:induction false} GreedyAhead(n: nat, es: seq<Edit>, k: nat, pick: set<nat>)
    requires Descending(es) && k <= |es| && Compatible(n, es, pick) && forall i :: i in pick ==> i < k
    ensures Behind(n, es, pick, Taken(n, es, k))
  {
    hide Descending;
    if k == 0 {
      assert pick == {};
    } else if k - 1 !in pick {
      GreedyAhead(n, es, k - 1, pick);
    } else {
      GreedyAhead(n, es, k - 1, pick - {k - 1});
      hide Behind, Compatible, Taken;
      assert pick == (pick - {k - 1}) + {k - 1};
      GreedyPick(n, es, k - 1, pick - {k - 1});
    }
  }

  // ---- The appliers ----

  /** The edits that get applied, left to right. */
  ghost function Applied(src: string, edits: seq<Edit>): seq<Edit> {
    Reverse(Taken(|src|, Sort(Later, edits), |edits|))
  }

  lemma {:induction false} SortedDescending(edits: seq<Edit>)
    ensures Descending(Sort(Later, edits))
  {
    LaterIsOrder();
    SortOrdered(Later, edits);
  }

  /** Applied edits are in bounds and pairwise disjoint, in source order, and were all asked for. */
  lemma {:induction false} AppliedFacts(src: string, edits: seq<Edit>)
    ensures var a := Applied(src, edits);
      && (forall i :: 0 <= i < |a| ==> InBounds(|src|, a[i]))
      && (forall i, j :: 0 <= i < j < |a| ==> a[i].end <= a[j].start)
      && multiset(a) <= multiset(edits)
  {
    var es := Sort(Later, edits);
    TakenFacts(|src|, es, |es|);
    TakenWithin(|src|, es, |es|);
    assert es[..|es|] == es;
    SortPermutes(Later, edits);
    ReversePermutes(Taken(|src|, es, |es|));
  }

  lemma {:induction false} TakenWithin(n: nat, es: seq<Edit>, k: nat)
    requires k <= |es|
    ensures multiset(Taken(n, es, k)) <= multiset(es[..k])
  {
    if k > 0 {
      var before := Taken(n, es, k - 1);
      TakenWithin(n, es, k - 1);
      assert Taken(n, es, k) == before || Taken(n, es, k) == before + [es[k - 1]];
      hide Taken;
      assert es[..k] == es[..k - 1] + [es[k - 1]];
      assert multiset(es[..k]) == multiset(es[..k - 1]) + multiset{es[k - 1]};
    }
  }

  lemma {:induction false} ReversePermutes(s: seq<Edit>)
    ensures multiset(Reverse(s)) == multiset(s)
  {
    if s != [] {
      ReversePermutes(s[1..]);
      assert Reverse(s) == Reverse(s[1..]) + [s[0]];
      assert s == [s[0]] + s[1..];
    }
  }

  /** A compatible choice stays one when the edits are put in another order. */
  lemma {:induction false} PlacedCompatible(n: nat, edits: seq<Edit>, es: seq<Edit>, at: seq<nat>, pick: set<nat>)
    requires Compatible(n, edits, pick) && FoundAt(edits, es, at) && Distinct(at)
    ensures Compatible(n, es, set i | i in pick :: at[i])
  {
    var image := set i | i in pick :: at[i];
    forall i, j | i in image && j in image && i < j && j < |es|
      ensures Disjoint(es[i], es[j])
    {
      var a :| a in pick && at[a] == i;
      var b :| b in pick && at[b] == j;
      assert a < b ==> Disjoint(edits[a], edits[b]);
      assert b < a ==> Disjoint(edits[b], edits[a]);
    }
  }

  /** No set of in-bounds, pairwise disjoint edits is larger than the set applied. */
  lemma {:induction false} AppliesMost(src: string, edits: seq<Edit>, pick: set<nat>)
    requires Compatible(|src|, edits, pick)
    ensures |pick| <= |Applied(src, edits)|
  {
    var n, es := |src|, Sort(Later, edits);
    SortedDescending(edits);
    var at := SortPlaces(Later, edits);
    var image := set i | i in pick :: at[i];
    PlacedCompatible(n, edits, es, at, pick);
    ImageSize(at, pick);
    assert forall i :: i in image ==> i < |es|;
    hide Compatible, FoundAt, Descending, Sort, Taken;
    GreedyAhead(n, es, |es|, image);
  }

  ghost function Changes(es: seq<Edit>): (cs: seq<Change>)
    ensures |cs| == |es|
    ensures forall i :: 0 <= i < |es| ==> cs[i] == es[i].change
  {
    seq(|es|, i requires 0 <= i < |es| => es[i].change)
  }

  /** The output with the applied edits substituted at once, and the length that follows. */
  ghost predicate Repaired(src: string, edits: seq<Edit>, out: string) {
    var a := Applied(src, edits);
    Placed(|src|, 0, a) && out == Substitute(src, 0, a) && |out| == |src| + Growth(a)
  }

  /** After `k` edits, the buffer is the source with the edits taken so far substituted. */
  ghost predicate Spliced(src: string, sorted: seq<Edit>, k: nat, out: string)
    requires k <= |sorted|
  {
    var a := Reverse(Taken(|src|, sorted, k));
    Placed(|src|, 0, a) && out == Substitute(src, 0, a)
  }

  lemma {:induction false} SpliceStep(src: string, sorted: seq<Edit>, k: nat, out: string)
    requires k < |sorted| && Spliced(src, sorted, k, out)
    requires Fits(|src|, sorted[k], LastStart(|src|, Taken(|src|, sorted, k)))
    ensures var e := sorted[k]; e.end <= |out| && Spliced(src, sorted, k + 1, out[..e.start] + e.text + out[e.end..])
  {
    var t, e := Taken(|src|, sorted, k), sorted[k];
    TakenPlaced(|src|, sorted, k);
    SpliceLeft(src, e, Reverse(t));
    assert Reverse(t + [e]) == [e] + Reverse(t);
  }

  lemma {:induction false} SpliceStart(src: string, sorted: seq<Edit>)
    ensures Spliced(src, sorted, 0, src)
  {
  }

  lemma {:induction false} SpliceSkip(src: string, sorted: seq<Edit>, k: nat, out: string)
    requires k < |sorted| && Spliced(src, sorted, k, out)
    requires !Fits(|src|, sorted[k], LastStart(|src|, Taken(|src|, sorted, k)))
    ensures Spliced(src, sorted, k + 1, out)
  {
  }

  lemma {:induction false} SplicedAll(src: string, edits: seq<Edit>, out: string)
    requires Spliced(src, Sort(Later, edits), |edits|, out)
    ensures Repaired(src, edits, out)
  {
    SubstituteLength(src, 0, Applied(src, edits));
  }

  method ApplySemantic(src: string, edits: seq<Edit>) returns (out: string, changes: seq<Change>, changed: bool)
    ensures Repaired(src, edits, out)
    ensures changed <==> Applied(src, edits) != []
    ensures changes == Sort(Earlier, Reverse(Changes(Applied(src, edits))))
  {
    hide Sort, Spliced;
    var n := |src|;
    var sorted := Sort(Later, edits);
    out, changes := src, [];
    SpliceStart(src, sorted);
    var lastStart := n + 1;
    for k := 0 to |sorted|
      invariant lastStart == LastStart(n, Taken(n, sorted, k))
      invariant Spliced(src, sorted, k, out)
      invariant changes == Changes(Taken(n, sorted, k))
    {
      var e := sorted[k];
      if e.start < 0 || e.end < e.start || e.end > n || e.end > lastStart {
        SpliceSkip(src, sorted, k, out);
        continue;
      }
      SpliceStep(src, sorted, k, out);
      out := out[..e.start] + e.text + out[e.end..];
      lastStart := e.start;
      changes := changes + [e.change];
    }
    SplicedAll(src, edits, out);
    assert Reverse(Changes(Applied(src, edits))) == changes;
    if |changes| == 0 {
      return src, [], false;
    }
    return out, Sort(Earlier, changes), true;
  }

  method ApplyStructural(src: string, edits: seq<Edit>) returns (out: string, skipped: nat)
    ensures Repaired(src, edits, out)
    ensures skipped + |Applied(src, edits)| == |edits|
  {
    var n := |src|;
    var sorted := Sort(Later, edits);
    out, skipped := src, 0;
    var lastStart := n + 1;
    for k := 0 to |sorted|
      invariant lastStart == LastStart(n, Taken(n, sorted, k))
      invariant Spliced(src, sorted, k, out)
      invariant skipped + |Taken(n, sorted, k)| == k
    {
      var e := sorted[k];
      if e.start < 0 || e.end < e.start || e.end > n || e.end > lastStart {
        skipped := skipped + 1;
        continue;
      }
      SpliceStep(src, sorted, k, out);
      out := out[..e.start] + e.text + out[e.end..];
      lastStart := e.start;
    }
    SplicedAll(src, edits, out);
  }

  /** Edits given in ascending, non-overlapping order are all applied, and reported in that order. */
  lemma {:induction false} AscendingAllApplied(src: string, edits: seq<Edit>)
    requires forall i :: 0 <= i < |edits| ==> InBounds(|src|, edits[i]) && edits[i].start < edits[i].end
    requires forall i, j :: 0 <= i < j < |edits| ==> edits[i].end <= edits[j].start
    requires forall i, j :: 0 <= i < j < |edits| ==> Earlier(edits[i].change, edits[j].change)
    ensures Applied(src, edits) == edits
    ensures Sort(Earlier, Reverse(Changes(Applied(src, edits)))) == Changes(edits)
  {
    hide Sort, Taken;
    assert Applied(src, edits) == edits by {
      AscendingApplied(src, edits);
    }
    var cs := Changes(edits);
    SortReversesDescending(Earlier, Reverse(cs));
    assert Reverse(Reverse(cs)) == cs;
  }

  lemma {:induction false} AscendingApplied(src: string, edits: seq<Edit>)
    requires forall i :: 0 <= i < |edits| ==> InBounds(|src|, edits[i]) && edits[i].start < edits[i].end
    requires forall i, j :: 0 <= i < j < |edits| ==> edits[i].end <= edits[j].start
    ensures Applied(src, edits) == edits
  {
    hide Sort, Taken;
    var sorted := Reverse(edits);
    assert forall i, j :: 0 <= i < j < |edits| ==> Later(edits[j], edits[i]);
    SortReversesDescending(Later, edits);
    TakesAll(|src|, sorted, |sorted|);
    assert sorted[..|sorted|] == sorted;
    assert Reverse(sorted) == edits;
  }

  lemma {:induction false} TakesAll(n: nat, sorted: seq<Edit>, k: nat)
    requires k <= |sorted|
    requires forall i :: 0 <= i < |sorted| ==> InBounds(n, sorted[i])
    requires forall i, j :: 0 <= i < j < |sorted| ==> sorted[j].end <= sorted[i].start
    ensures Taken(n, sorted, k) == sorted[..k]
  {
    if k > 0 {
      TakesAll(n, sorted, k - 1);
      assert sorted[..k] == sorted[..k - 1] + [sorted[k - 1]];
    }
  }
}
