/**
 Rewriting foreign `len(x)` helper calls into `x.len()` at the token level: bracket matching
 over the token stream, and the edits handed to the right-to-left applier.
 */
module LenCalls {

  import opened Edits
  import opened Text
  import opened Tokens

  function Position(t: Token): Change {
    Change(t.line, t.column, "builtin_len_call")
  }

  // ---- Bracket depth ----

  /** Openers minus closers among `toks[lo..hi]`. */
  function Net(toks: seq<Token>, opener: Kind, closer: Kind, lo: nat, hi: nat): int
    requires lo <= hi <= |toks|
    decreases hi
  {
    if lo == hi then 0
    else
      Net(toks, opener, closer, lo, hi - 1) +
      (if toks[hi - 1].kind == opener then 1 else if toks[hi - 1].kind == closer then -1 else 0)
  }

  /** `close` is where the parenthesis opened at `open` is balanced for the first time. */
  ghost predicate Closes(toks: seq<Token>, open: nat, close: nat) {
    && open < close < |toks|
    && Net(toks, LParen, RParen, open, close + 1) == 0
    && (forall k :: open < k <= close ==> Net(toks, LParen, RParen, open, k) > 0)
  }

  lemma {:induction false} ClosesUnique(toks: seq<Token>, open: nat, c1: nat, c2: nat)
    requires Closes(toks, open, c1) && Closes(toks, open, c2)
    ensures c1 == c2
  {
  }

  /** The least balanced close of the parenthesis at `open`, or -1 when there is none. */
  method MatchParen(toks: seq<Token>, open: nat) returns (close: int)
    requires open < |toks| && toks[open].kind == LParen
    ensures close == -1 || 0 <= close
    ensures 0 <= close ==> Closes(toks, open, close) && toks[close].kind == RParen
    ensures close == -1 ==> forall c: nat :: !Closes(toks, open, c)
  {
    var depth := 0;
    var i := open;
    while i < |toks|
      invariant open <= i <= |toks|
      invariant depth == Net(toks, LParen, RParen, open, i)
      invariant forall k :: open < k <= i ==> Net(toks, LParen, RParen, open, k) > 0
    {
      if toks[i].kind == LParen {
        depth := depth + 1;
      } else if toks[i].kind == RParen {
        depth := depth - 1;
        if depth == 0 {
          return i;
        }
      }
      i := i + 1;
    }
    return -1;
  }

  /** The comma test's counter: like `Net`, but a closer at depth zero is ignored. */
  function Clamped(toks: seq<Token>, opener: Kind, closer: Kind, lo: nat, hi: nat): nat
    requires lo <= hi <= |toks|
    decreases hi
  {
    if lo == hi then 0
    else
      var d := Clamped(toks, opener, closer, lo, hi - 1);
      if toks[hi - 1].kind == opener then d + 1
      else if toks[hi - 1].kind == closer && d > 0 then d - 1 else d
  }

  /** No prefix of `toks[lo..hi]` closes more than it opened. */
  ghost predicate NeverNegative(toks: seq<Token>, opener: Kind, closer: Kind, lo: nat, hi: nat)
    requires lo <= hi <= |toks|
    decreases hi
  {
    Net(toks, opener, closer, lo, hi) >= 0 && (lo < hi ==> NeverNegative(toks, opener, closer, lo, hi - 1))
  }

  lemma {:induction false} NeverNegativeBelow(toks: seq<Token>, opener: Kind, closer: Kind, lo: nat, i: nat, hi: nat)
    requires lo <= i <= hi <= |toks| && NeverNegative(toks, opener, closer, lo, hi)
    ensures NeverNegative(toks, opener, closer, lo, i)
    decreases hi
  {
    if i < hi {
      NeverNegativeBelow(toks, opener, closer, lo, i, hi - 1);
    }
  }

  lemma {:induction false} ClampedIsNet(toks: seq<Token>, opener: Kind, closer: Kind, lo: nat, hi: nat)
    requires lo <= hi <= |toks| && NeverNegative(toks, opener, closer, lo, hi) && opener != closer
    ensures Clamped(toks, opener, closer, lo, hi) == Net(toks, opener, closer, lo, hi)
    decreases hi
  {
    if lo < hi {
      ClampedIsNet(toks, opener, closer, lo, hi - 1);
    }
  }

  /** Inside a matched pair of parentheses the parenthesis depth never goes negative. */
  lemma {:induction false} InsideParens(toks: seq<Token>, open: nat, k: nat, close: nat)
    requires Closes(toks, open, close) && toks[open].kind == LParen && open < k <= close
    ensures NeverNegative(toks, LParen, RParen, open + 1, k)
    decreases k
  {
    NetShift(toks, open, k);
    assert Net(toks, LParen, RParen, open, k) > 0;
    if k > open + 1 {
      InsideParens(toks, open, k - 1, close);
    }
  }

  lemma {:induction false} NetShift(toks: seq<Token>, open: nat, k: nat)
    requires open < k <= |toks| && toks[open].kind == LParen
    ensures Net(toks, LParen, RParen, open, k) == 1 + Net(toks, LParen, RParen, open + 1, k)
    decreases k
  {
    if k > open + 1 {
      NetShift(toks, open, k - 1);
    } else {
      assert Net(toks, LParen, RParen, open, open) == 0;
    }
  }

  /** A comma outside every clamped bracket. */
  ghost predicate SeesComma(toks: seq<Token>, open: nat, close: nat) {
    exists i :: open < i < close && i < |toks| && toks[i].kind == Comma && AtZero(toks, open + 1, i)
  }

  ghost predicate AtZero(toks: seq<Token>, lo: nat, i: nat)
    requires lo <= i <= |toks|
  {
    && Clamped(toks, LParen, RParen, lo, i) == 0
    && Clamped(toks, LBracket, RBracket, lo, i) == 0
    && Clamped(toks, LBrace, RBrace, lo, i) == 0
  }

  method HasTopLevelComma(toks: seq<Token>, open: nat, close: nat) returns (found: bool)
    requires open < close < |toks|
    ensures found <==> SeesComma(toks, open, close)
  {
    var paren, bracket, brace := 0, 0, 0;
    for i := open + 1 to close
      invariant paren == Clamped(toks, LParen, RParen, open + 1, i)
      invariant bracket == Clamped(toks, LBracket, RBracket, open + 1, i)
      invariant brace == Clamped(toks, LBrace, RBrace, open + 1, i)
      invariant forall k :: open < k < i && toks[k].kind == Comma ==> !AtZero(toks, open + 1, k)
    {
      match toks[i].kind
      case LParen => paren := paren + 1;
      case RParen => if paren > 0 { paren := paren - 1; }
      case LBracket => bracket := bracket + 1;
      case RBracket => if bracket > 0 { bracket := bracket - 1; }
      case LBrace => brace := brace + 1;
      case RBrace => if brace > 0 { brace := brace - 1; }
      case Comma =>
        if paren == 0 && bracket == 0 && brace == 0 {
          return true;
        }
      case _ =>
    }
    return false;
  }

  /** The same with true bracket depths: the call has more than one argument. */
  ghost predicate TopLevelComma(toks: seq<Token>, open: nat, close: nat)
    requires open < close < |toks|
  {
    exists i :: open < i < close && toks[i].kind == Comma && NetZero(toks, open + 1, i)
  }

  ghost predicate NetZero(toks: seq<Token>, lo: nat, i: nat)
    requires lo <= i <= |toks|
  {
    && Net(toks, LParen, RParen, lo, i) == 0
    && Net(toks, LBracket, RBracket, lo, i) == 0
    && Net(toks, LBrace, RBrace, lo, i) == 0
  }

  /** On an argument list whose brackets and braces never go negative the test counts true depths. */
  lemma {:induction false} CommaTestAgrees(toks: seq<Token>, open: nat, close: nat)
    requires Closes(toks, open, close) && toks[open].kind == LParen
    requires NeverNegative(toks, LBracket, RBracket, open + 1, close)
    requires NeverNegative(toks, LBrace, RBrace, open + 1, close)
    ensures SeesComma(toks, open, close) <==> TopLevelComma(toks, open, close)
  {
    InsideParens(toks, open, close, close);
    var lo := open + 1;
    forall i | lo <= i < close
      ensures AtZero(toks, lo, i) <==> NetZero(toks, lo, i)
    {
      DepthsAgree(toks, lo, i, close);
    }
  }

  lemma {:induction false} DepthsAgree(toks: seq<Token>, lo: nat, i: nat, hi: nat)
    requires lo <= i <= hi <= |toks|
    requires NeverNegative(toks, LParen, RParen, lo, hi)
    requires NeverNegative(toks, LBracket, RBracket, lo, hi)
    requires NeverNegative(toks, LBrace, RBrace, lo, hi)
    ensures AtZero(toks, lo, i) <==> NetZero(toks, lo, i)
  {
    NeverNegativeBelow(toks, LParen, RParen, lo, i, hi);
    NeverNegativeBelow(toks, LBracket, RBracket, lo, i, hi);
    NeverNegativeBelow(toks, LBrace, RBrace, lo, i, hi);
    ClampedIsNet(toks, LParen, RParen, lo, i);
    ClampedIsNet(toks, LBracket, RBracket, lo, i);
    ClampedIsNet(toks, LBrace, RBrace, lo, i);
  }

  // ---- Call sites ----

  /** The nearest token before `i` that is not a newline, or -1. */
  function PrevToken(toks: seq<Token>, i: int): (j: int)
    requires i <= |toks|
    ensures -1 <= j && (j >= 0 ==> j < i && toks[j].kind != Newline)
    ensures forall k :: j < k < i && 0 <= k ==> toks[k].kind == Newline
    decreases if i < 0 then 0 else i
  {
    if i <= 0 then -1
    else if toks[i - 1].kind != Newline then i - 1
    else PrevToken(toks, i - 1)
  }

  /** The nearest token after `i` that is not a newline, or -1. */
  function NextToken(toks: seq<Token>, i: int): (j: int)
    requires 0 <= i < |toks|
    ensures j == -1 || (i < j < |toks| && toks[j].kind != Newline)
    ensures forall k :: i < k < (if j == -1 then |toks| else j) ==> toks[k].kind == Newline
    decreases |toks| - i
  {
    if i + 1 == |toks| then -1
    else if toks[i + 1].kind != Newline then i + 1
    else NextToken(toks, i + 1)
  }

  predicate Qualified(toks: seq<Token>, i: nat)
    requires i < |toks|
  {
    var p := PrevToken(toks, i);
    p >= 0 && (toks[p].kind == Dot || toks[p].kind == QDot || toks[p].kind == ColonColon)
  }

  function ArgText(src: string, toks: seq<Token>, open: nat, close: nat): string
    requires open < |toks| && close < |toks|
  {
    if toks[open].end <= toks[close].start <= |src| then TrimSpace(src[toks[open].end..toks[close].start]) else ""
  }

  /** Token `i` heads a one-argument call `len(...)` that is closed at `close`. */
  ghost predicate LenCall(src: string, toks: seq<Token>, i: nat, close: nat) {
    && i < |toks| && toks[i].kind == Ident && toks[i].value == "len" && !Qualified(toks, i)
    && var open := NextToken(toks, i);
    && open >= 0 && toks[open].kind == LParen
    && Closes(toks, open, close)
    && !SeesComma(toks, open, close)
    && ArgText(src, toks, open, close) != ""
  }

  predicate NeedsParens(expr: string) {
    exists i :: 0 <= i < |expr| && expr[i] in " \t\n+-*/%<>=&|^?:"
  }

  function MethodCall(expr: string): string {
    var target := TrimSpace(expr);
    (if NeedsParens(target) then "(" + target + ")" else target) + ".len()"
  }

  function SiteEdit(src: string, toks: seq<Token>, i: nat, close: nat): Edit
    requires i < close < |toks|
  {
    var open := NextToken(toks, i);
    Edit(toks[i].start, toks[close].end, MethodCall(if open < 0 then "" else ArgText(src, toks, open, close)), Position(toks[i]))
  }

  // ---- Calls and replacements, without the helpers ----

  ghost predicate Qualifies(k: Kind) {
    k == Dot || k == QDot || k == ColonColon
  }

  /** Some character is a blank or an operator. */
  ghost predicate Compound(arg: string) {
    exists k :: 0 <= k < |arg| && arg[k] in " \t\n+-*/%<>=&|^?:"
  }

  /** What stands between the parentheses, without the outer white space; it is not empty. */
  ghost predicate IsArgument(src: string, toks: seq<Token>, open: nat, close: nat, arg: string) {
    && open < |toks| && close < |toks| && toks[open].end <= toks[close].start <= |src|
    && var between := src[toks[open].end..toks[close].start];
    exists lo: nat, hi: nat :: Stripped(between, lo, hi) && lo < hi && arg == between[lo..hi]
  }

  /** An identifier `len` behind no qualifier, a parenthesis behind it that closes at `close`, and one argument between. */
  ghost predicate CallAt(src: string, toks: seq<Token>, i: nat, open: nat, close: nat, arg: string) {
    && i < |toks| && toks[i].kind == Ident && toks[i].value == "len"
    && (forall p: nat :: Adjacent(toks, p, i) ==> !Qualifies(toks[p].kind))
    && Adjacent(toks, i, open) && toks[open].kind == LParen && Closes(toks, open, close) && !SeesComma(toks, open, close)
    && IsArgument(src, toks, open, close, arg)
  }

  /** The edit turns the call into a method call on its argument, in parentheses exactly if that is compound. */
  ghost predicate Replaces(src: string, toks: seq<Token>, i: nat, close: nat, e: Edit) {
    exists open: nat, arg: string ::
      && CallAt(src, toks, i, open, close, arg) && close < |toks|
      && e.start == toks[i].start && e.end == toks[close].end
      && e.change == Change(toks[i].line, toks[i].column, "builtin_len_call")
      && e.text == if Compound(arg) then "(" + arg + ").len()" else arg + ".len()"
  }

  lemma {:induction false} QualifiedIff(toks: seq<Token>, i: nat)
    requires i < |toks|
    ensures Qualified(toks, i) <==> exists p: nat :: Adjacent(toks, p, i) && Qualifies(toks[p].kind)
  {
    var p := PrevToken(toks, i);
    if p >= 0 {
      assert Adjacent(toks, p, i);
    }
    forall q: nat | Adjacent(toks, q, i) && Qualifies(toks[q].kind)
      ensures q == p
    {
    }
  }

  lemma {:induction false} NextIs(toks: seq<Token>, i: nat, open: nat)
    requires Adjacent(toks, i, open) && toks[open].kind == LParen
    ensures NextToken(toks, i) == open
  {
  }

  lemma {:induction false} ArgumentIff(src: string, toks: seq<Token>, open: nat, close: nat, arg: string)
    requires open < |toks| && close < |toks|
    ensures IsArgument(src, toks, open, close, arg) <==> arg != "" && arg == ArgText(src, toks, open, close)
  {
    hide Stripped, TrimSpace;
    if toks[open].end <= toks[close].start <= |src| {
      var between := src[toks[open].end..toks[close].start];
      var lo, hi := TrimStrips(between);
      assert lo <= hi <= |between| by { StrippedBounds(between, lo, hi); }
      forall l: nat, h: nat | Stripped(between, l, h) && l < h
        ensures h <= |between| && between[l..h] == TrimSpace(between)
      {
        StrippedBounds(between, l, h);
        TrimUnique(between, l, h);
      }
      if arg != "" && arg == ArgText(src, toks, open, close) {
        assert Stripped(between, lo, hi) && lo < hi && arg == between[lo..hi];
      }
    }
  }

  lemma {:induction false} StrippedBounds(s: string, lo: nat, hi: nat)
    requires Stripped(s, lo, hi)
    ensures lo <= hi <= |s|
  {
  }

  /** The scan's tests find exactly the calls. */
  lemma {:induction false} LenCallIff(src: string, toks: seq<Token>, i: nat, close: nat)
    ensures LenCall(src, toks, i, close) <==> exists open: nat, arg: string :: CallAt(src, toks, i, open, close, arg)
  {
    hide Closes, SeesComma, ArgText, IsArgument, Qualified, Adjacent;
    if LenCall(src, toks, i, close) {
      var open := NextToken(toks, i);
      QualifiedIff(toks, i);
      NextAdjacent(toks, i);
      ClosesBounds(toks, open, close);
      ArgumentIff(src, toks, open, close, ArgText(src, toks, open, close));
      assert CallAt(src, toks, i, open, close, ArgText(src, toks, open, close));
    }
    forall open: nat, arg: string | CallAt(src, toks, i, open, close, arg)
      ensures LenCall(src, toks, i, close)
    {
      CallIs(src, toks, i, open, close, arg);
    }
  }

  lemma {:induction false} CallIs(src: string, toks: seq<Token>, i: nat, open: nat, close: nat, arg: string)
    requires CallAt(src, toks, i, open, close, arg)
    ensures LenCall(src, toks, i, close) && NextToken(toks, i) == open && arg == ArgText(src, toks, open, close)
  {
    hide Closes, SeesComma, ArgText, IsArgument, Qualified, Adjacent;
    QualifiedIff(toks, i);
    NextIs(toks, i, open);
    ClosesBounds(toks, open, close);
    assert open < |toks| by { AdjacentBounds(toks, i, open); }
    ArgumentIff(src, toks, open, close, arg);
  }

  lemma {:induction false} AdjacentBounds(toks: seq<Token>, i: nat, j: nat)
    requires Adjacent(toks, i, j)
    ensures i < j < |toks|
  {
  }

  lemma {:induction false} NextAdjacent(toks: seq<Token>, i: nat)
    requires i < |toks| && NextToken(toks, i) >= 0
    ensures Adjacent(toks, i, NextToken(toks, i))
  {
  }

  lemma {:induction false} ClosesBounds(toks: seq<Token>, open: nat, close: nat)
    requires Closes(toks, open, close)
    ensures open < close < |toks|
  {
  }

  lemma {:induction false} ParensIff(arg: string)
    ensures NeedsParens(arg) <==> Compound(arg)
  {
  }

  /** Text that is trimmed already. */
  lemma {:induction false} TrimTwice(s: string)
    ensures TrimSpace(TrimSpace(s)) == TrimSpace(s)
  {
    if s != "" {
      if IsSpace(s[0]) {
        TrimTwice(s[1..]);
      } else if IsSpace(s[|s| - 1]) {
        TrimTwice(s[..|s| - 1]);
      }
    }
  }

  /** Each edit replaces its call. */
  lemma {:induction false} SiteReplaces(src: string, toks: seq<Token>, i: nat, close: nat)
    requires i < close < |toks| && LenCall(src, toks, i, close)
    ensures Replaces(src, toks, i, close, SiteEdit(src, toks, i, close))
  {
    hide Closes, SeesComma, IsArgument, Qualified, Compound, NeedsParens, LenCall, TrimSpace;
    LenCallIff(src, toks, i, close);
    var open: nat, arg: string :| CallAt(src, toks, i, open, close, arg);
    CallIs(src, toks, i, open, close, arg);
    var e := SiteEdit(src, toks, i, close);
    assert toks[open].end <= toks[close].start <= |src| by { ArgumentBounds(src, toks, open, close, arg); }
    TrimTwice(src[toks[open].end..toks[close].start]);
    ParensIff(arg);
    assert ")" + ".len()" == ").len()";
    assert e.text == if Compound(arg) then "(" + arg + ").len()" else arg + ".len()";
  }

  lemma {:induction false} ArgumentBounds(src: string, toks: seq<Token>, open: nat, close: nat, arg: string)
    requires IsArgument(src, toks, open, close, arg)
    ensures open < |toks| && close < |toks| && toks[open].end <= toks[close].start <= |src|
  {
  }

  // ---- The sites ----

  /** The sites found are calls, from left to right and apart, and edited in that order. */
  ghost predicate SitesFit(src: string, toks: seq<Token>, sites: seq<(nat, nat)>, edits: seq<Edit>) {
    && |edits| == |sites|
    && (forall k :: 0 <= k < |sites| ==>
          sites[k].0 < sites[k].1 < |toks| && LenCall(src, toks, sites[k].0, sites[k].1)
          && edits[k] == SiteEdit(src, toks, sites[k].0, sites[k].1))
    && (forall k, m :: 0 <= k < m < |sites| ==> sites[k].1 < sites[m].0)
  }

  /** Every call below token `i` is a site or lies inside one. */
  ghost predicate SitesCover(src: string, toks: seq<Token>, sites: seq<(nat, nat)>, i: nat) {
    forall m: nat, c: nat :: m < i && LenCall(src, toks, m, c) ==> Covered(sites, m)
  }

  ghost predicate Covered(sites: seq<(nat, nat)>, m: nat) {
    exists k :: 0 <= k < |sites| && sites[k].0 <= m <= sites[k].1
  }

  /** Decides whether token `i` heads a call, and where it closes. */
  method FindCall(src: string, toks: seq<Token>, i: nat) returns (close: int)
    requires i < |toks| && WellLexed(src, toks)
    ensures close == -1 || 0 <= close
    ensures 0 <= close ==> i < close < |toks| && LenCall(src, toks, i, close)
    ensures close == -1 ==> forall c: nat :: !LenCall(src, toks, i, c)
  {
    if toks[i].kind != Ident || toks[i].value != "len" || Qualified(toks, i) {
      return -1;
    }
    var open := NextToken(toks, i);
    if open < 0 || toks[open].kind != LParen {
      return -1;
    }
    close := MatchParen(toks, open);
    if close < 0 {
      return -1;
    }
    forall c: nat | Closes(toks, open, c)
      ensures c == close
    {
      ClosesUnique(toks, open, c, close);
    }
    var comma := HasTopLevelComma(toks, open, close);
    if comma || ArgText(src, toks, open, close) == "" {
      return -1;
    }
  }

  /** The scan has dealt with the tokens below `i`. */
  ghost predicate Scanned(src: string, toks: seq<Token>, sites: seq<(nat, nat)>, edits: seq<Edit>, i: nat) {
    && SitesFit(src, toks, sites, edits) && SitesCover(src, toks, sites, i)
    && (forall k :: 0 <= k < |sites| ==> sites[k].1 < i)
  }

  lemma {:induction false} ScanCall(src: string, toks: seq<Token>, sites: seq<(nat, nat)>, edits: seq<Edit>, i: nat, close: nat)
    requires Scanned(src, toks, sites, edits, i) && i < close < |toks| && LenCall(src, toks, i, close)
    ensures Scanned(src, toks, sites + [(i, close)], edits + [SiteEdit(src, toks, i, close)], close + 1)
  {
    hide LenCall, SiteEdit, SitesCover;
    CoverMore(src, toks, sites, i, close);
  }

  lemma {:induction false} ScanOther(src: string, toks: seq<Token>, sites: seq<(nat, nat)>, edits: seq<Edit>, i: nat)
    requires Scanned(src, toks, sites, edits, i) && forall c: nat :: !LenCall(src, toks, i, c)
    ensures Scanned(src, toks, sites, edits, i + 1)
  {
  }

  /** A call needs a token after its name, so nothing is missed at the end. */
  lemma {:induction false} ScanEnd(src: string, toks: seq<Token>, sites: seq<(nat, nat)>, edits: seq<Edit>, i: nat)
    requires Scanned(src, toks, sites, edits, i) && i + 1 >= |toks|
    ensures SitesCover(src, toks, sites, |toks|)
  {
  }

  /** Scans left to right, resuming after each call found. */
  method FindSites(src: string, toks: seq<Token>) returns (edits: seq<Edit>, sites: seq<(nat, nat)>)
    requires WellLexed(src, toks)
    ensures SitesFit(src, toks, sites, edits) && SitesCover(src, toks, sites, |toks|)
  {
    hide LenCall, SiteEdit, WellLexed;
    edits, sites := [], [];
    var i := 0;
    while i + 1 < |toks|
      invariant 0 <= i <= |toks|
      invariant Scanned(src, toks, sites, edits, i)
      decreases |toks| - i
    {
      var close := FindCall(src, toks, i);
      if close >= 0 {
        ScanCall(src, toks, sites, edits, i, close);
        edits := edits + [SiteEdit(src, toks, i, close)];
        sites := sites + [(i, close)];
        i := close + 1;
      } else {
        ScanOther(src, toks, sites, edits, i);
        i := i + 1;
      }
    }
    ScanEnd(src, toks, sites, edits, i);
  }

  /** Each edit turns its call into a method call. */
  ghost predicate AllReplace(src: string, toks: seq<Token>, sites: seq<(nat, nat)>, edits: seq<Edit>) {
    |edits| == |sites| && forall k :: 0 <= k < |sites| ==> Replaces(src, toks, sites[k].0, sites[k].1, edits[k])
  }

  lemma {:induction false} SitesReplaced(src: string, toks: seq<Token>, sites: seq<(nat, nat)>, edits: seq<Edit>)
    requires SitesFit(src, toks, sites, edits)
    ensures AllReplace(src, toks, sites, edits)
  {
    hide Replaces, SiteEdit, LenCall;
    forall k | 0 <= k < |sites|
      ensures Replaces(src, toks, sites[k].0, sites[k].1, edits[k])
    {
      SiteReplaces(src, toks, sites[k].0, sites[k].1);
    }
  }

  /** The outcome when exactly the outermost calls are replaced, all at once, and reported in source order. */
  ghost predicate CallsRewritten(src: string, toks: seq<Token>, out: string, changes: seq<Change>, changed: bool) {
    exists sites, edits ::
      && SitesFit(src, toks, sites, edits) && SitesCover(src, toks, sites, |toks|) && AllReplace(src, toks, sites, edits)
      && Placed(|src|, 0, edits) && out == Substitute(src, 0, edits)
      && changes == Changes(edits) && (changed <==> edits != [])
  }

  /** Every unqualified one-argument `len` call that is not inside another rewritten one is replaced. */
  method RewriteLenCalls(src: string, toks: seq<Token>) returns (out: string, changes: seq<Change>, changed: bool)
    requires WellLexed(src, toks)
    ensures CallsRewritten(src, toks, out, changes, changed)
  {
    hide SitesFit, SitesCover, AllReplace, Placed, Substitute, WellLexed;
    var edits, sites := FindSites(src, toks);
    SitesReplaced(src, toks, sites, edits);
    SitesAscend(src, toks, sites, edits);
    AscendingAllApplied(src, edits);
    out, changes, changed := ApplySemantic(src, edits);
  }

  /** There is only one way to pick sites: a first difference would leave one side's call uncovered. */
  lemma {:induction false} SitesUnique(src: string, toks: seq<Token>, a: seq<(nat, nat)>, ea: seq<Edit>, b: seq<(nat, nat)>, eb: seq<Edit>)
    requires SitesFit(src, toks, a, ea) && SitesCover(src, toks, a, |toks|)
    requires SitesFit(src, toks, b, eb) && SitesCover(src, toks, b, |toks|)
    ensures a == b && ea == eb
  {
    hide LenCall, SiteEdit, SitesFit, SitesCover;
    var n := if |a| <= |b| then |a| else |b|;
    SamePrefix(src, toks, a, ea, b, eb, n);
    assert forall j :: 0 <= j < n ==> a[j] == a[..n][j] == b[j];
    if |a| < |b| {
      NoSiteLeft(src, toks, a, b, eb, n);
    } else if |b| < |a| {
      NoSiteLeft(src, toks, b, a, ea, n);
    }
    assert a == a[..n] == b[..n] == b;
    EditsOfSites(src, toks, a, ea, eb);
  }

  lemma {:induction false} EditsOfSites(src: string, toks: seq<Token>, a: seq<(nat, nat)>, ea: seq<Edit>, eb: seq<Edit>)
    requires SitesFit(src, toks, a, ea) && SitesFit(src, toks, a, eb)
    ensures ea == eb
  {
    hide LenCall, SiteEdit;
  }

  lemma {:induction false} SamePrefix(src: string, toks: seq<Token>, a: seq<(nat, nat)>, ea: seq<Edit>, b: seq<(nat, nat)>, eb: seq<Edit>, n: nat)
    requires SitesFit(src, toks, a, ea) && SitesCover(src, toks, a, |toks|)
    requires SitesFit(src, toks, b, eb) && SitesCover(src, toks, b, |toks|)
    requires n <= |a| && n <= |b|
    ensures a[..n] == b[..n]
  {
    hide LenCall, SiteEdit, SitesFit, SitesCover;
    if n > 0 {
      var k := n - 1;
      SamePrefix(src, toks, a, ea, b, eb, k);
      assert forall j :: 0 <= j < k ==> a[j] == a[..k][j] == b[j];
      SitesOrdered(src, toks, a, ea);
      SitesOrdered(src, toks, b, eb);
      NotEarlier(src, toks, a, b, eb, k);
      NotEarlier(src, toks, b, a, ea, k);
      SameClose(src, toks, a[k].0, a[k].1, b[k].1);
      assert a[..n] == a[..k] + [a[k]] && b[..n] == b[..k] + [b[k]];
    }
  }

  lemma {:induction false} SameClose(src: string, toks: seq<Token>, i: nat, c1: nat, c2: nat)
    requires LenCall(src, toks, i, c1) && LenCall(src, toks, i, c2)
    ensures c1 == c2
  {
    ClosesUnique(toks, NextToken(toks, i), c1, c2);
  }

  lemma {:induction false} SitesOrdered(src: string, toks: seq<Token>, a: seq<(nat, nat)>, ea: seq<Edit>)
    requires SitesFit(src, toks, a, ea)
    ensures forall j, m :: 0 <= j < m < |a| ==> a[j].0 < a[m].0
    ensures forall j :: 0 <= j < |a| ==> LenCall(src, toks, a[j].0, a[j].1)
  {
    hide LenCall, SiteEdit;
  }

  /** After a common prefix, the next site of `b` does not start before the next site of `a`. */
  lemma {:induction false} NotEarlier(src: string, toks: seq<Token>, a: seq<(nat, nat)>, b: seq<(nat, nat)>, eb: seq<Edit>, k: nat)
    requires SitesCover(src, toks, a, |toks|) && SitesFit(src, toks, b, eb) && k < |a| && k < |b|
    requires forall j :: 0 <= j < k ==> a[j] == b[j]
    requires forall j, m :: 0 <= j < m < |a| ==> a[j].0 < a[m].0
    ensures a[k].0 <= b[k].0
  {
    hide LenCall, SiteEdit;
    assert forall i :: 0 <= i < k ==> b[i].1 < b[k].0;
    assert Covered(a, b[k].0);
    var j :| 0 <= j < |a| && a[j].0 <= b[k].0 <= a[j].1;
  }

  lemma {:induction false} NoSiteLeft(src: string, toks: seq<Token>, a: seq<(nat, nat)>, b: seq<(nat, nat)>, eb: seq<Edit>, k: nat)
    requires SitesCover(src, toks, a, |toks|) && SitesFit(src, toks, b, eb) && k == |a| < |b|
    ensures exists j :: 0 <= j < k && a[j] != b[j]
  {
    hide LenCall, SiteEdit;
    assert Covered(a, b[k].0);
    var j :| 0 <= j < |a| && a[j].0 <= b[k].0 <= a[j].1;
    assert a[j] != b[j];
  }

  lemma {:induction false} CoverMore(src: string, toks: seq<Token>, sites: seq<(nat, nat)>, i: nat, close: nat)
    requires SitesCover(src, toks, sites, i)
    ensures SitesCover(src, toks, sites + [(i, close)], close + 1)
  {
    var more := sites + [(i, close)];
    forall m: nat, c: nat | m < close + 1 && LenCall(src, toks, m, c)
      ensures Covered(more, m)
    {
      if m < i {
        var k :| 0 <= k < |sites| && sites[k].0 <= m <= sites[k].1;
        assert more[k] == sites[k];
      } else {
        assert more[|sites|] == (i, close);
      }
    }
  }

  /** Sites that are apart give edits the applier takes in full. */
  lemma {:induction false} SitesAscend(src: string, toks: seq<Token>, sites: seq<(nat, nat)>, edits: seq<Edit>)
    requires WellLexed(src, toks) && SitesFit(src, toks, sites, edits)
    ensures forall i :: 0 <= i < |edits| ==> InBounds(|src|, edits[i]) && edits[i].start < edits[i].end
    ensures forall i, j :: 0 <= i < j < |edits| ==> edits[i].end <= edits[j].start
    ensures forall i, j :: 0 <= i < j < |edits| ==> Earlier(edits[i].change, edits[j].change)
  {
  }
}
