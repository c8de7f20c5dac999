/** A stable insertion sort, standing for the library's stable sort by a strict weak order. */
module StableSort {

  ghost predicate StrictWeakOrder<T(!new)>(less: (T, T) -> bool) {
    && (forall x, y :: less(x, y) ==> !less(y, x))
    && (forall x, y, z :: less(x, y) ==> less(x, z) || less(z, y))
  }

  ghost predicate Ordered<T>(less: (T, T) -> bool, s: seq<T>) {
    forall i, j :: 0 <= i < j < |s| ==> !less(s[j], s[i])
  }

  /** Puts `x` after every element it is not less than, so equal elements keep their order. */
  function Insert<T>(less: (T, T) -> bool, s: seq<T>, x: T): (r: seq<T>)
    ensures |r| == |s| + 1
  {
    if s == [] || !less(x, s[|s| - 1]) then s + [x]
    else Insert(less, s[..|s| - 1], x) + [s[|s| - 1]]
  }

  function Sort<T>(less: (T, T) -> bool, s: seq<T>): (r: seq<T>)
    ensures |r| == |s|
  {
    if s == [] then [] else Insert(less, Sort(less, s[..|s| - 1]), s[|s| - 1])
  }

  lemma {:induction false} InsertPermutes<T>(less: (T, T) -> bool, s: seq<T>, x: T)
    ensures multiset(Insert(less, s, x)) == multiset(s) + multiset{x}
  {
    if s != [] && less(x, s[|s| - 1]) {
      InsertPermutes(less, s[..|s| - 1], x);
      assert s == s[..|s| - 1] + [s[|s| - 1]];
    }
  }

  lemma {:induction false} SortPermutes<T>(less: (T, T) -> bool, s: seq<T>)
    ensures multiset(Sort(less, s)) == multiset(s)
  {
    if s != [] {
      SortPermutes(less, s[..|s| - 1]);
      InsertPermutes(less, Sort(less, s[..|s| - 1]), s[|s| - 1]);
      assert s == s[..|s| - 1] + [s[|s| - 1]];
    }
  }

  lemma {:induction false} InsertMembers<T>(less: (T, T) -> bool, s: seq<T>, x: T, i: nat)
    requires i <= |s|
    ensures Insert(less, s, x)[i] == x || exists j :: 0 <= j < |s| && s[j] == Insert(less, s, x)[i]
  {
    if s != [] && less(x, s[|s| - 1]) && i < |s| {
      InsertMembers(less, s[..|s| - 1], x, i);
    }
  }

  lemma {:induction false} InsertOrdered<T(!new)>(less: (T, T) -> bool, s: seq<T>, x: T)
    requires StrictWeakOrder(less) && Ordered(less, s)
    ensures Ordered(less, Insert(less, s, x))
  {
    if s == [] {
    } else if less(x, s[|s| - 1]) {
      var front, last := s[..|s| - 1], s[|s| - 1];
      InsertOrdered(less, front, x);
      var r := Insert(less, front, x);
      forall i | 0 <= i < |r|
        ensures !less(last, r[i])
      {
        InsertMembers(less, front, x, i);
      }
    } else {
      forall i | 0 <= i < |s|
        ensures !less(x, s[i])
      {
        assert i < |s| - 1 ==> !less(s[|s| - 1], s[i]);
      }
    }
  }

  lemma {:induction false} SortOrdered<T(!new)>(less: (T, T) -> bool, s: seq<T>)
    requires StrictWeakOrder(less)
    ensures Ordered(less, Sort(less, s))
  {
    if s != [] {
      SortOrdered(less, s[..|s| - 1]);
      InsertOrdered(less, Sort(less, s[..|s| - 1]), s[|s| - 1]);
    }
  }

  lemma {:induction false} InsertAt<T>(less: (T, T) -> bool, s: seq<T>, x: T) returns (p: nat)
    ensures p <= |s| && Insert(less, s, x) == s[..p] + [x] + s[p..]
  {
    if s == [] || !less(x, s[|s| - 1]) {
      p := |s|;
    } else {
      p := InsertAt(less, s[..|s| - 1], x);
      assert s[p..] == s[..|s| - 1][p..] + [s[|s| - 1]];
    }
  }

  ghost predicate Distinct(at: seq<nat>) {
    forall i, j :: 0 <= i < j < |at| ==> at[i] != at[j]
  }

  /** Each element of `s` is found in `r` at the place that `at` names. */
  ghost predicate FoundAt<T(!new)>(s: seq<T>, r: seq<T>, at: seq<nat>) {
    |at| == |s| && forall i :: 0 <= i < |s| ==> at[i] < |r| && r[at[i]] == s[i]
  }

  lemma {:induction false} PlacesGrow<T(!new)>(s: seq<T>, r: seq<T>, before: seq<nat>, x: T, p: nat) returns (at: seq<nat>)
    requires FoundAt(s, r, before) && Distinct(before) && p <= |r|
    ensures FoundAt(s + [x], r[..p] + [x] + r[p..], at) && Distinct(at)
  {
    var r' := r[..p] + [x] + r[p..];
    at := seq(|s| + 1, i requires 0 <= i < |s| + 1 =>
            if i == |s| then p else if before[i] < p then before[i] else before[i] + 1);
    forall i | 0 <= i < |s| + 1
      ensures at[i] < |r'| && r'[at[i]] == (s + [x])[i]
    {
      if i < |s| && p <= before[i] {
        assert r[p..][before[i] - p] == r[before[i]];
      }
    }
  }

  lemma {:induction false} SourcesGrow<T(!new)>(s: seq<T>, r: seq<T>, before: seq<nat>, x: T, p: nat) returns (source: seq<nat>)
    requires FoundAt(r, s, before) && Distinct(before) && p <= |r|
    ensures FoundAt(r[..p] + [x] + r[p..], s + [x], source) && Distinct(source)
  {
    var r' := r[..p] + [x] + r[p..];
    source := before[..p] + [|s|] + before[p..];
    forall i | 0 <= i < |r'|
      ensures source[i] < |s| + 1 && (s + [x])[source[i]] == r'[i]
    {
      if p < i {
        assert r[p..][i - p - 1] == r[i - 1] && before[p..][i - p - 1] == before[i - 1];
      }
    }
    forall i, j | 0 <= i < j < |source|
      ensures source[i] != source[j]
    {
      assert source[i] == if i < p then before[i] else if i == p then |s| else before[i - 1];
      assert source[j] == if j < p then before[j] else if j == p then |s| else before[j - 1];
    }
  }

  /** Where each element of the input ends up: distinct places, one per element. */
  lemma {:induction false} SortPlaces<T(!new)>(less: (T, T) -> bool, s: seq<T>) returns (at: seq<nat>)
    ensures FoundAt(s, Sort(less, s), at) && Distinct(at)
  {
    if s == [] {
      at := [];
    } else {
      var front, last := s[..|s| - 1], s[|s| - 1];
      var before := SortPlaces(less, front);
      var p := InsertAt(less, Sort(less, front), last);
      hide FoundAt, Distinct;
      at := PlacesGrow(front, Sort(less, front), before, last, p);
      assert s == front + [last];
    }
  }

  /** Where each element of the output comes from: distinct places of the input. */
  lemma {:induction false} SortSources<T(!new)>(less: (T, T) -> bool, s: seq<T>) returns (source: seq<nat>)
    ensures FoundAt(Sort(less, s), s, source) && Distinct(source)
  {
    if s == [] {
      source := [];
    } else {
      var front, last := s[..|s| - 1], s[|s| - 1];
      var before := SortSources(less, front);
      var p := InsertAt(less, Sort(less, front), last);
      hide FoundAt, Distinct;
      source := SourcesGrow(front, Sort(less, front), before, last, p);
      assert s == front + [last];
    }
  }

  /** An injective image has as many elements as the set it comes from. */
  lemma {:induction false} ImageSize(at: seq<nat>, pick: set<nat>)
    requires Distinct(at) && forall i :: i in pick ==> i < |at|
    ensures |set i | i in pick :: at[i]| == |pick|
  {
    if pick != {} {
      var x :| x in pick;
      var rest := pick - {x};
      ImageSize(at, rest);
      ImageOfOne(at, rest, x);
      assert pick == rest + {x};
    }
  }

  lemma {:induction false} ImageOfOne(at: seq<nat>, rest: set<nat>, x: nat)
    requires Distinct(at) && x < |at| && x !in rest && forall i :: i in rest ==> i < |at|
    ensures at[x] !in (set i | i in rest :: at[i]) && (set i | i in rest + {x} :: at[i]) == (set i | i in rest :: at[i]) + {at[x]}
  {
  }

  function Reverse<T>(s: seq<T>): (r: seq<T>)
    ensures |r| == |s|
    ensures forall i :: 0 <= i < |s| ==> r[i] == s[|s| - 1 - i]
  {
    seq(|s|, i requires 0 <= i < |s| => s[|s| - 1 - i])
  }

  /** Input that is in order already is returned as it is. */
  lemma {:induction false} SortKeepsOrdered<T>(less: (T, T) -> bool, s: seq<T>)
    requires Ordered(less, s)
    ensures Sort(less, s) == s
  {
    if s != [] {
      SortKeepsOrdered(less, s[..|s| - 1]);
    }
  }

  /** Input that is strictly descending comes out reversed. */
  lemma {:induction false} SortReversesDescending<T>(less: (T, T) -> bool, s: seq<T>)
    requires forall i, j :: 0 <= i < j < |s| ==> less(s[j], s[i])
    ensures Sort(less, s) == Reverse(s)
  {
    if s != [] {
      var front, last := s[..|s| - 1], s[|s| - 1];
      assert forall i :: 0 <= i < |front| ==> front[i] == s[i];
      SortReversesDescending(less, front);
      InsertBelow(less, front, last);
      ReverseSnoc(s);
    }
  }

  lemma {:induction false} ReverseSnoc<T>(s: seq<T>)
    requires s != []
    ensures Reverse(s) == [s[|s| - 1]] + Reverse(s[..|s| - 1])
  {
  }

  lemma {:induction false} InsertBelow<T>(less: (T, T) -> bool, s: seq<T>, x: T)
    requires forall i :: 0 <= i < |s| ==> less(x, s[i])
    ensures Insert(less, Reverse(s), x) == [x] + Reverse(s)
  {
    InsertFirst(less, Reverse(s), x);
  }

  lemma {:induction false} InsertFirst<T>(less: (T, T) -> bool, s: seq<T>, x: T)
    requires forall i :: 0 <= i < |s| ==> less(x, s[i])
    ensures Insert(less, s, x) == [x] + s
  {
    if s != [] {
      var front, last := s[..|s| - 1], s[|s| - 1];
      InsertFirst(less, front, x);
      assert Insert(less, s, x) == Insert(less, front, x) + [last];
      assert [x] + s == ([x] + front) + [last];
    }
  }
}
