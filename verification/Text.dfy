/** Trimming of ASCII white space, and the byte order on strings. */
module Text {

  import opened StableSort

  predicate IsSpace(c: char) {
    c == ' ' || c == '\t' || c == '\n' || c == '\r' || c == '\U{0B}' || c == '\U{0C}'
  }

  function TrimSpace(s: string): string {
    if s == "" then s
    else if IsSpace(s[0]) then TrimSpace(s[1..])
    else if IsSpace(s[|s| - 1]) then TrimSpace(s[..|s| - 1])
    else s
  }

  /** The six characters that count as white space. */
  ghost predicate White(c: char) {
    c in " \t\n\r\U{0B}\U{0C}"
  }

  lemma {:induction false} SpaceIsWhite(c: char)
    ensures IsSpace(c) <==> White(c)
  {
    var six := " \t\n\r\U{0B}\U{0C}";
    assert six[0] == ' ' && six[1] == '\t' && six[2] == '\n' && six[3] == '\r' && six[4] == '\U{0B}' && six[5] == '\U{0C}';
  }

  ghost predicate Blank(s: string) {
    forall k :: 0 <= k < |s| ==> White(s[k])
  }

  /** `s[lo..hi]` is what stands between the outer white space of `s`. */
  ghost predicate Stripped(s: string, lo: nat, hi: nat) {
    && lo <= hi <= |s| && Blank(s[..lo]) && Blank(s[hi..])
    && (lo < hi ==> !White(s[lo]) && !White(s[hi - 1]))
  }

  lemma {:induction false} StripFirst(s: string, lo: nat, hi: nat)
    requires s != "" && White(s[0]) && Stripped(s[1..], lo, hi)
    ensures Stripped(s, lo + 1, hi + 1) && s[lo + 1..hi + 1] == s[1..][lo..hi]
  {
    hide White;
    assert s[..lo + 1] == [s[0]] + s[1..][..lo];
    assert s[hi + 1..] == s[1..][hi..];
    assert s[lo + 1..hi + 1] == s[1..][lo..hi];
  }

  lemma {:induction false} StripLast(s: string, lo: nat, hi: nat)
    requires s != "" && White(s[|s| - 1]) && Stripped(s[..|s| - 1], lo, hi)
    ensures Stripped(s, lo, hi) && s[lo..hi] == s[..|s| - 1][lo..hi]
  {
    hide White;
    var front := s[..|s| - 1];
    assert s[..lo] == front[..lo];
    assert s[hi..] == front[hi..] + [s[|s| - 1]];
    assert s[lo..hi] == front[lo..hi];
  }

  lemma {:induction false} StripNone(s: string)
    requires s == "" || (!White(s[0]) && !White(s[|s| - 1]))
    ensures Stripped(s, 0, |s|) && s[0..|s|] == s
  {
  }

  /** Trimming cuts white space off the ends, all of it and nothing else. */
  lemma {:induction false} TrimStrips(s: string) returns (lo: nat, hi: nat)
    ensures Stripped(s, lo, hi) && TrimSpace(s) == s[lo..hi]
  {
    hide Stripped, White, IsSpace;
    if s == "" {
      StripNone(s);
      lo, hi := 0, 0;
    } else {
      SpaceIsWhite(s[0]);
      SpaceIsWhite(s[|s| - 1]);
      if IsSpace(s[0]) {
        lo, hi := TrimStrips(s[1..]);
        StripFirst(s, lo, hi);
        lo, hi := lo + 1, hi + 1;
      } else if IsSpace(s[|s| - 1]) {
        lo, hi := TrimStrips(s[..|s| - 1]);
        StripLast(s, lo, hi);
      } else {
        StripNone(s);
        lo, hi := 0, |s|;
      }
    }
  }

  lemma {:induction false} BlankAt(s: string, k: nat)
    requires Blank(s) && k < |s|
    ensures White(s[k])
  {
  }

  /** There is only one way to strip a string that is not blank. */
  lemma {:induction false} TrimUnique(s: string, lo: nat, hi: nat)
    requires Stripped(s, lo, hi) && lo < hi
    ensures TrimSpace(s) == s[lo..hi]
  {
    var l, h := TrimStrips(s);
    hide Blank, White, TrimSpace;
    if l < lo {
      BlankAt(s[..lo], l);
    }
    if lo < l {
      BlankAt(s[..l], lo);
    }
    if hi < h {
      BlankAt(s[hi..], h - 1 - hi);
    }
    if h < hi {
      BlankAt(s[h..], hi - 1 - h);
    }
  }

  // ---- Byte order on strings ----

  predicate LexLess(a: string, b: string) {
    if b == "" then false
    else if a == "" then true
    else a[0] < b[0] || (a[0] == b[0] && LexLess(a[1..], b[1..]))
  }

  /** The strings agree up to `k`, and there `a` ends or has the lesser character. */
  ghost predicate SplitsAt(a: string, b: string, k: nat) {
    k <= |a| && k < |b| && a[..k] == b[..k] && (k == |a| || a[k] < b[k])
  }

  /** The order of strings is told by the first place where they differ. */
  lemma {:induction false} LexLessIff(a: string, b: string)
    ensures LexLess(a, b) <==> exists k: nat :: SplitsAt(a, b, k)
  {
    if a == "" || b == "" {
      assert b != "" ==> SplitsAt(a, b, 0);
    } else if a[0] != b[0] {
      assert a[0] < b[0] ==> SplitsAt(a, b, 0);
      assert forall k: nat :: SplitsAt(a, b, k) ==> k == 0 || a[..k][0] == b[..k][0];
    } else {
      LexLessIff(a[1..], b[1..]);
      forall k: nat
        ensures SplitsAt(a[1..], b[1..], k) <==> SplitsAt(a, b, k + 1)
      {
        SplitsBehind(a, b, k);
      }
      if k: nat :| SplitsAt(a, b, k) {
        assert SplitsAt(a[1..], b[1..], k - 1);
      }
    }
  }

  lemma {:induction false} SplitsBehind(a: string, b: string, k: nat)
    requires a != "" && b != "" && a[0] == b[0]
    ensures SplitsAt(a[1..], b[1..], k) <==> SplitsAt(a, b, k + 1)
  {
    if k < |a| && k + 1 < |b| {
      assert a[..k + 1] == [a[0]] + a[1..][..k] && b[..k + 1] == [b[0]] + b[1..][..k];
    }
  }

  lemma {:induction false} LexTotal(a: string, b: string)
    ensures LexLess(a, b) || LexLess(b, a) || a == b
    ensures !(LexLess(a, b) && LexLess(b, a))
  {
    if a != "" && b != "" && a[0] == b[0] {
      LexTotal(a[1..], b[1..]);
      assert a == [a[0]] + a[1..] && b == [b[0]] + b[1..];
    }
  }

  lemma {:induction false} LexTransitive(a: string, b: string, c: string)
    requires LexLess(a, b) && LexLess(b, c)
    ensures LexLess(a, c)
  {
    if a != "" && a[0] == b[0] && b[0] == c[0] {
      LexTransitive(a[1..], b[1..], c[1..]);
    }
  }

  lemma {:induction false} LexIsWeakOrder()
    ensures StrictWeakOrder(LexLess)
  {
    forall x: string, y: string | LexLess(x, y)
      ensures !LexLess(y, x)
    {
      LexTotal(x, y);
    }
    forall x: string, y: string, z: string | LexLess(x, y)
      ensures LexLess(x, z) || LexLess(z, y)
    {
      LexTotal(x, y);
      LexTotal(x, z);
      LexTotal(z, y);
      if LexLess(y, z) && LexLess(z, x) {
        LexTransitive(y, z, x);
      }
    }
  }
}
