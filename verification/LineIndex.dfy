/** Lines and columns of byte offsets, by linear scan and by binary search over line starts. */
module LineIndex {

  import opened Wrappers

  /** The line and column of offset `k`: one more line per newline before it. */
  function LineCol(src: string, k: nat): (int, int)
    requires k <= |src|
  {
    if k == 0 then (1, 1)
    else
      var (line, col) := LineCol(src, k - 1);
      if src[k - 1] == '\n' then (line + 1, 1) else (line, col + 1)
  }

  function LineStarts(src: string, k: nat): (starts: seq<nat>)
    requires k <= |src|
    ensures starts != [] && starts[0] == 0
  {
    if k == 0 then [0]
    else LineStarts(src, k - 1) + if src[k - 1] == '\n' then [k] else []
  }

  /** Line starts ascend. */
  lemma {:induction false} StartsAscend(src: string, k: nat)
    requires k <= |src|
    ensures var s := LineStarts(src, k); s[|s| - 1] <= k && forall i, j :: 0 <= i < j < |s| ==> s[i] < s[j]
  {
    if k > 0 {
      StartsAscend(src, k - 1);
    }
  }

  lemma {:induction false} StartsGrow(src: string, k: nat, n: nat)
    requires k <= n <= |src|
    ensures LineStarts(src, k) <= LineStarts(src, n)
    ensures forall i :: |LineStarts(src, k)| <= i < |LineStarts(src, n)| ==> LineStarts(src, n)[i] > k
    decreases n - k
  {
    if k < n {
      StartsGrow(src, k, n - 1);
      StartsAscend(src, n);
    }
  }

  /** The line of an offset counts the line starts up to it, and the column counts from the last of them. */
  lemma {:induction false} LineColFromStarts(src: string, k: nat)
    requires k <= |src|
    ensures var s := LineStarts(src, k); LineCol(src, k) == (|s|, k - s[|s| - 1] + 1)
  {
    if k > 0 {
      LineColFromStarts(src, k - 1);
    }
  }

  /** Line and column lead back to the offset. */
  lemma {:induction false} MapsBack(src: string, k: nat)
    requires k <= |src|
    ensures var (line, col) := LineCol(src, k); var s := LineStarts(src, |src|);
      && 1 <= line <= |s| && col >= 1 && s[line - 1] + col - 1 == k
      && (line < |s| ==> k < s[line])
  {
    LineColFromStarts(src, k);
    StartsGrow(src, k, |src|);
    StartsAscend(src, k);
  }

  predicate Before(a: (int, int), b: (int, int)) {
    a.0 < b.0 || (a.0 == b.0 && a.1 < b.1)
  }

  /** Later offsets have later positions, so no two offsets share one. */
  lemma {:induction false} PositionsAscend(src: string, j: nat, k: nat)
    requires j < k <= |src|
    ensures Before(LineCol(src, j), LineCol(src, k))
  {
    MapsBack(src, j);
    MapsBack(src, k);
    StartsAscend(src, |src|);
    var s, a, b := LineStarts(src, |src|), LineCol(src, j), LineCol(src, k);
    assert forall i :: b.0 <= i < |s| ==> s[i] > k;
  }

  // ---- The scans ----

  /** The single-pass scan; offsets outside the source are moved to its nearest end. */
  method ByteOffsetLineCol(src: string, offset0: int) returns (line: int, col: int)
    ensures (line, col) == LineCol(src, if offset0 < 0 then 0 else if offset0 > |src| then |src| else offset0)
  {
    var offset := offset0;
    if offset < 0 {
      offset := 0;
    }
    if offset > |src| {
      offset := |src|;
    }
    line, col := 1, 1;
    for i := 0 to offset
      invariant (line, col) == LineCol(src, i)
    {
      if src[i] == '\n' {
        line := line + 1;
        col := 1;
        continue;
      }
      col := col + 1;
    }
  }

  method ComputeLineStarts(src: string) returns (starts: seq<nat>)
    ensures starts == LineStarts(src, |src|)
  {
    starts := [0];
    for i := 0 to |src|
      invariant starts == LineStarts(src, i)
    {
      if src[i] == '\n' {
        starts := starts + [i + 1];
      }
    }
  }

  /** The first position whose entry is at least `x`, by bisection. */
  method SearchInts(a: seq<nat>, x: int) returns (k: nat)
    requires forall i, j :: 0 <= i < j < |a| ==> a[i] < a[j]
    ensures k <= |a| && (forall i :: 0 <= i < k ==> a[i] < x) && (forall i :: k <= i < |a| ==> a[i] >= x)
  {
    var lo, hi := 0, |a|;
    while lo < hi
      invariant 0 <= lo <= hi <= |a|
      invariant forall i :: 0 <= i < lo ==> a[i] < x
      invariant forall i :: hi <= i < |a| ==> a[i] >= x
    {
      var mid := lo + (hi - lo) / 2;
      if a[mid] < x {
        lo := mid + 1;
      } else {
        hi := mid;
      }
    }
    k := lo;
  }

  lemma {:induction false} StartsBelow(src: string, k: nat, n: nat)
    requires k <= |src| && n <= |LineStarts(src, |src|)|
    requires forall i :: 0 <= i < n ==> LineStarts(src, |src|)[i] < k + 1
    requires forall i :: n <= i < |LineStarts(src, |src|)| ==> LineStarts(src, |src|)[i] >= k + 1
    ensures n >= 1 && LineStarts(src, |src|)[..n] == LineStarts(src, k)
  {
    StartsGrow(src, k, |src|);
    StartsAscend(src, k);
    var s, all := LineStarts(src, k), LineStarts(src, |src|);
    assert |s| < |all| ==> all[|s|] > k;
    assert forall i :: 0 <= i < |s| ==> all[i] == s[i] && s[i] <= k;
  }

  /** The search over line starts finds the line and column of the scan, for exactly the offsets in range. */
  method OffsetToLineCol(starts: seq<nat>, src: string, offset: int) returns (pos: Option<(int, int)>)
    requires starts == LineStarts(src, |src|)
    ensures pos == if 0 <= offset <= |src| then Some(LineCol(src, offset)) else None
  {
    if offset < 0 || offset > |src| {
      return None;
    }
    StartsAscend(src, |src|);
    var k := SearchInts(starts, offset + 1);
    var idx := k - 1;
    if idx < 0 {
      idx := 0;
    }
    StartsBelow(src, offset, k);
    LineColFromStarts(src, offset);
    assert starts[..k][k - 1] == starts[k - 1];
    return Some((idx + 1, offset - starts[idx] + 1));
  }

  datatype Span = Span(start: int, startPos: (int, int), end: int, endPos: (int, int))

  /** A span that starts in range: an end left of the start is moved to it, one out of range gets the start's position. */
  method OffsetsToSpan(starts: seq<nat>, src: string, start: int, end0: int) returns (span: Option<Span>)
    requires starts == LineStarts(src, |src|)
    ensures span.Some? <==> 0 <= start <= |src|
    ensures span.Some? ==>
      && span.value.start == start && span.value.startPos == LineCol(src, start)
      && span.value.end == (if end0 < start then start else end0)
      && (span.value.end <= |src| ==> span.value.endPos == LineCol(src, span.value.end))
      && (span.value.end > |src| ==> span.value.endPos == span.value.startPos)
      && !Before(span.value.endPos, span.value.startPos)
  {
    var end := end0;
    if end < start {
      end := start;
    }
    var s := OffsetToLineCol(starts, src, start);
    if s.None? {
      return None;
    }
    var e := OffsetToLineCol(starts, src, end);
    if e.None? {
      e := s;
    } else if start < end {
      PositionsAscend(src, start, end);
    }
    return Some(Span(start, s.value, end, e.value));
  }
}
