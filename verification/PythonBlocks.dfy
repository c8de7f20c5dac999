/**
 Turning Python indentation blocks into brace blocks.  A line is what the splitter and the
 header recogniser make of it; the output is the sequence of pieces written, in order.
 */
module PythonBlocks {

  import opened Wrappers

  datatype ScopeKind = BlockScope | MatchScope | MatchArm

  datatype Header = Header(kind: ScopeKind, elseish: bool, requiresMatch: bool)

  /** `significant` is false for blank and comment lines; `header` is the recogniser's verdict. */
  datatype Line = Line(indent: string, significant: bool, header: Option<Header>)

  /** `at` is the header's line number; an empty `bodyIndent` means no body line was seen yet. */
  datatype Scope = Scope(at: nat, kind: ScopeKind, headerIndent: string, bodyIndent: string)

  /** A line copied, a header opening a brace, a brace closed on its own line (with a comma after a
      match arm), or a closing brace merged into the header that follows it. */
  datatype Event =
    | Raw(line: nat)
    | Open(line: nat)
    | Close(of: nat, comma: bool)
    | CloseOpen(of: nat, line: nat)

  // ---- Indentation nesting, stated on the lines alone ----

  /** The first significant line at or after `k`, or the end. */
  function FirstFrom(lines: seq<Line>, k: nat): (f: nat)
    ensures k <= |lines| ==> k <= f <= |lines|
    ensures f < |lines| ==> lines[f].significant
    ensures forall m :: k <= m < f && m < |lines| ==> !lines[m].significant
    decreases |lines| - k
  {
    if k >= |lines| then |lines|
    else if lines[k].significant then k
    else FirstFrom(lines, k + 1)
  }

  /** Line `k` is not left of the first significant line after `i`. */
  ghost predicate NotLeft(lines: seq<Line>, i: nat, k: nat)
    requires i < k < |lines| && lines[k].significant
  {
    |lines[k].indent| >= |lines[FirstFrom(lines, i + 1)].indent|
  }

  /** No significant line after `i` and before `j` is left of the first one after `i`. */
  ghost predicate Live(lines: seq<Line>, i: nat, j: nat) {
    forall k :: i < k < j && k < |lines| && lines[k].significant ==> NotLeft(lines, i, k)
  }

  /** Line `j` is in the indented block that line `i` heads. */
  ghost predicate Encloses(lines: seq<Line>, i: nat, j: nat) {
    i < j && Live(lines, i, j + 1)
  }

  ghost function Alive(lines: seq<Line>, headers: seq<nat>, j: nat): seq<nat> {
    if headers == [] then []
    else
      var last := headers[|headers| - 1];
      Alive(lines, headers[..|headers| - 1], j) + if Live(lines, last, j) then [last] else []
  }

  predicate HasKind(lines: seq<Line>, i: nat, kind: ScopeKind) {
    i < |lines| && lines[i].header.Some? && lines[i].header.value.kind == kind
  }

  /** Line `j` is rewritten as a header, given the headers rewritten before it. */
  ghost predicate Opens(lines: seq<Line>, headers: seq<nat>, j: nat)
    requires j < |lines|
  {
    var before, after := Alive(lines, headers, j), Alive(lines, headers, j + 1);
    && lines[j].significant && lines[j].header.Some?
    && (lines[j].header.value.elseish ==> |after| < |before| && HasKind(lines, before[|after|], BlockScope))
    && (lines[j].header.value.requiresMatch ==> after != [] && HasKind(lines, after[|after| - 1], MatchScope))
  }

  /** The header lines rewritten among the first `j` lines. */
  ghost function Opened(lines: seq<Line>, j: nat): seq<nat>
    requires j <= |lines|
  {
    if j == 0 then []
    else
      var earlier := Opened(lines, j - 1);
      if Opens(lines, earlier, j - 1) then earlier + [j - 1] else earlier
  }

  /** The line after a header is indented deeper than it (if there is one before line `j`). */
  ghost predicate Deeper(lines: seq<Line>, i: nat, j: nat)
    requires i < |lines|
  {
    var f := FirstFrom(lines, i + 1);
    f < |lines| && f < j ==> |lines[f].indent| > |lines[i].indent|
  }

  /** Every rewritten header has a line after it. */
  ghost predicate HeadersHaveBodies(lines: seq<Line>) {
    forall i :: i in Opened(lines, |lines|) && i < |lines| ==> FirstFrom(lines, i + 1) < |lines|
  }

  /** Some header is rewritten, and each has a body that is deeper. */
  ghost predicate Rewritable(lines: seq<Line>) {
    && Opened(lines, |lines|) != []
    && HeadersHaveBodies(lines)
    && (forall i :: i in Opened(lines, |lines|) && i < |lines| ==> Deeper(lines, i, |lines|))
  }

  // ---- Reading the output back ----

  /**
   What the braces written so far amount to: the headers still open, each line written with the
   headers whose braces enclose it, and the headers opened and closed in order.
   */
  datatype Trace =
    | Mismatched
    | Trace(open: seq<nat>, nesting: seq<(nat, seq<nat>)>, openers: seq<nat>, closers: seq<nat>)

  function Step(t: Trace, e: Event): Trace {
    if t.Mismatched? then Mismatched
    else
      var n := |t.open|;
      match e
      case Raw(k) => t.(nesting := t.nesting + [(k, t.open)])
      case Open(i) => t.(nesting := t.nesting + [(i, t.open)], open := t.open + [i], openers := t.openers + [i])
      case Close(c, _) =>
        if n == 0 || t.open[n - 1] != c then Mismatched
        else t.(open := t.open[..n - 1], closers := t.closers + [c])
      case CloseOpen(c, i) =>
        if n == 0 || t.open[n - 1] != c then Mismatched
        else
          var outer := t.open[..n - 1];
          Trace(outer + [i], t.nesting + [(i, outer)], t.openers + [i], t.closers + [c])
  }

  function ReadBack(es: seq<Event>): Trace {
    if es == [] then Trace([], [], [], []) else Step(ReadBack(es[..|es| - 1]), es[|es| - 1])
  }

  lemma {:induction false} ReadBackSnoc(es: seq<Event>, e: Event)
    ensures ReadBack(es + [e]) == Step(ReadBack(es), e)
  {
  }

  lemma {:induction false} StepConserves(t: Trace, e: Event)
    requires t.Trace? && multiset(t.openers) == multiset(t.closers) + multiset(t.open) && Step(t, e).Trace?
    ensures var t' := Step(t, e); multiset(t'.openers) == multiset(t'.closers) + multiset(t'.open)
  {
    if e.Close? || e.CloseOpen? {
      var n := |t.open| - 1;
      assert t.open == t.open[..n] + [e.of];
      assert multiset(t.open) == multiset(t.open[..n]) + multiset{e.of};
    }
  }

  /** Whatever the events, braces that match up conserve headers: opened is closed plus still open. */
  lemma {:induction false} BracesConserved(es: seq<Event>)
    requires ReadBack(es).Trace?
    ensures var t := ReadBack(es); multiset(t.openers) == multiset(t.closers) + multiset(t.open)
  {
    if es != [] {
      BracesConserved(es[..|es| - 1]);
      StepConserves(ReadBack(es[..|es| - 1]), es[|es| - 1]);
    }
  }

  // ---- The scope stack ----

  function Ats(stack: seq<Scope>): (ats: seq<nat>)
    ensures |ats| == |stack|
    ensures forall k :: 0 <= k < |stack| ==> ats[k] == stack[k].at
  {
    seq(|stack|, k requires 0 <= k < |stack| => stack[k].at)
  }

  /**
   Header and body indents interleave upward through the stack; only the top scope may still be
   without a body, so the empty string never stands for a real body indent.
   */
  ghost predicate Interleaved(stack: seq<Scope>) {
    && (forall k :: 0 <= k < |stack| && stack[k].bodyIndent != "" ==> |stack[k].headerIndent| < |stack[k].bodyIndent|)
    && (forall k :: 0 <= k < |stack| - 1 ==> stack[k].bodyIndent != "")
    && (forall a, b :: 0 <= a < b < |stack| ==> |stack[a].bodyIndent| <= |stack[b].headerIndent|)
  }

  /** A scope records its header, and its body indent once line `j` is past the first body line. */
  ghost predicate Records(lines: seq<Line>, s: Scope, j: nat) {
    var f := FirstFrom(lines, s.at + 1);
    && s.at < j <= |lines| && HasKind(lines, s.at, s.kind) && s.headerIndent == lines[s.at].indent
    && (if s.bodyIndent == "" then f >= j else f < j && s.bodyIndent == lines[f].indent)
  }

  ghost predicate StackFits(lines: seq<Line>, stack: seq<Scope>, j: nat)
    requires j <= |lines|
  {
    && Interleaved(stack)
    && (forall k :: 0 <= k < |stack| ==> Records(lines, stack[k], j))
    && Ats(stack) == Alive(lines, Opened(lines, j), j)
    && (forall i :: i in Opened(lines, j) ==> i < |lines| && Deeper(lines, i, j))
  }

  /**
   Closing scopes for a line indented by `indent`: fails when the innermost scope has no body yet
   and the line is not deeper than its header; otherwise cuts the stack where bodies get too deep.
   */
  method PrepareClosings(stack0: seq<Scope>, indent: string)
      returns (stack: seq<Scope>, closings: seq<Scope>, ok: bool)
    requires Interleaved(stack0)
    ensures var n := |stack0|;
      if n > 0 && stack0[n - 1].bodyIndent == "" then
        && ok == (|indent| > |stack0[n - 1].headerIndent|)
        && (ok ==> closings == [] && stack == stack0[n - 1 := stack0[n - 1].(bodyIndent := indent)])
      else
        && ok && |stack| <= n && stack == stack0[..|stack|] && |closings| == n - |stack|
        && (forall k :: 0 <= k < |closings| ==> closings[k] == stack0[n - 1 - k])
        && (forall k :: 0 <= k < |stack| ==> |stack0[k].bodyIndent| <= |indent|)
        && (forall k :: |stack| <= k < n ==> |indent| < |stack0[k].bodyIndent|)
  {
    stack, closings := stack0, [];
    var n := |stack0|;
    while |stack| > 0
      invariant |stack| <= n && stack == stack0[..|stack|] && |closings| == n - |stack|
      invariant |stack| < n ==> stack0[n - 1].bodyIndent != ""
      invariant forall k :: 0 <= k < |closings| ==> closings[k] == stack0[n - 1 - k]
      invariant forall k :: |stack| <= k < n ==> |indent| < |stack0[k].bodyIndent|
    {
      var top := stack[|stack| - 1];
      if top.bodyIndent == "" {
        if |indent| <= |top.headerIndent| {
          return stack, [], false;
        }
        stack := stack[|stack| - 1 := top.(bodyIndent := indent)];
        return stack, closings, true;
      }
      if |indent| < |top.bodyIndent| {
        closings := closings + [top];
        stack := stack[..|stack| - 1];
      } else {
        return stack, closings, true;
      }
    }
    return stack, closings, true;
  }

  // ---- How aliveness evolves line by line ----

  lemma {:induction false} LiveStep(lines: seq<Line>, i: nat, j: nat)
    requires i < j < |lines|
    ensures Live(lines, i, j + 1) <==>
            Live(lines, i, j) && (lines[j].significant ==> NotLeft(lines, i, j))
  {
  }

  lemma {:induction false} AliveTwice(lines: seq<Line>, headers: seq<nat>, j: nat)
    requires j < |lines| && forall i :: i in headers ==> i < j
    ensures Alive(lines, headers, j + 1) == Alive(lines, Alive(lines, headers, j), j + 1)
  {
    if headers != [] {
      var front, last := headers[..|headers| - 1], headers[|headers| - 1];
      assert last in headers && forall i :: i in front ==> i in headers;
      AliveTwice(lines, front, j);
      LiveStep(lines, last, j);
      var a := Alive(lines, headers, j);
      if Live(lines, last, j) {
        assert a[..|a| - 1] == Alive(lines, front, j) && a[|a| - 1] == last;
      } else {
        assert a == Alive(lines, front, j);
      }
    }
  }

  /** If aliveness holds up to position `m` and fails from there on, the alive ones are the first `m`. */
  lemma {:induction false} AlivePrefix(lines: seq<Line>, ats: seq<nat>, m: nat, j: nat)
    requires m <= |ats|
    requires forall k :: 0 <= k < |ats| ==> (Live(lines, ats[k], j) <==> k < m)
    ensures Alive(lines, ats, j) == ats[..m]
  {
    if ats != [] {
      var front := ats[..|ats| - 1];
      if m == |ats| {
        AlivePrefix(lines, front, m - 1, j);
        assert ats[..m] == front + [ats[m - 1]];
      } else {
        AlivePrefix(lines, front, m, j);
        assert front[..m] == ats[..m];
      }
    }
  }

  lemma {:induction false} AliveMembers(lines: seq<Line>, headers: seq<nat>, j: nat)
    ensures forall i :: i in Alive(lines, headers, j) <==> i in headers && Live(lines, i, j)
  {
    if headers != [] {
      AliveMembers(lines, headers[..|headers| - 1], j);
      assert headers == headers[..|headers| - 1] + [headers[|headers| - 1]];
    }
  }

  lemma {:induction false} OpenedBelow(lines: seq<Line>, j: nat)
    requires j <= |lines|
    ensures forall i :: i in Opened(lines, j) ==> i < j && lines[i].significant
  {
    if j > 0 {
      OpenedBelow(lines, j - 1);
    }
  }

  lemma {:induction false} OpenedGrows(lines: seq<Line>, j: nat, n: nat)
    requires j <= n <= |lines|
    ensures forall i :: i in Opened(lines, j) <==> i in Opened(lines, n) && i < j
    decreases n - j
  {
    if j < n {
      OpenedGrows(lines, j, n - 1);
      OpenedBelow(lines, n - 1);
      OpenedBelow(lines, j);
    } else {
      OpenedBelow(lines, j);
    }
  }

  lemma {:induction false} AliveAt(lines: seq<Line>, headers: seq<nat>, j: nat, k: nat)
    requires k < |Alive(lines, headers, j)|
    ensures Alive(lines, headers, j)[k] in headers && Live(lines, Alive(lines, headers, j)[k], j)
  {
    var front := headers[..|headers| - 1];
    if k < |Alive(lines, front, j)| {
      AliveAt(lines, front, j, k);
    }
  }

  /** Line `j` cuts the alive headers where their bodies get too deep for it. */
  lemma {:induction false} AliveNext(lines: seq<Line>, headers: seq<nat>, ats: seq<nat>, m: nat, j: nat)
    requires j < |lines| && m <= |ats| && ats == Alive(lines, headers, j)
    requires forall i :: i in headers ==> i < j
    requires forall k :: 0 <= k < |ats| && ats[k] < j ==>
      (k < m <==> (lines[j].significant ==> NotLeft(lines, ats[k], j)))
    ensures Alive(lines, headers, j + 1) == ats[..m]
  {
    forall k | 0 <= k < |ats|
      ensures Live(lines, ats[k], j + 1) <==> k < m
    {
      AliveAt(lines, headers, j, k);
      LiveStep(lines, ats[k], j);
    }
    AlivePrefix(lines, ats, m, j + 1);
    assert Alive(lines, headers, j + 1) == Alive(lines, ats, j + 1) by {
      AliveTwice(lines, headers, j);
    }
  }

  /** A line that is not significant changes nothing. */
  lemma {:induction false} SkipLine(lines: seq<Line>, stack: seq<Scope>, j: nat)
    requires j < |lines| && !lines[j].significant && StackFits(lines, stack, j)
    ensures StackFits(lines, stack, j + 1)
  {
    OpenedBelow(lines, j);
    var ats := Ats(stack);
    AliveNext(lines, Opened(lines, j), ats, |ats|, j);
    assert ats[..|ats|] == ats;
    forall k | 0 <= k < |stack|
      ensures Records(lines, stack[k], j + 1)
    {
      assert Records(lines, stack[k], j);
    }
    forall i | i in Opened(lines, j)
      ensures i < |lines| && Deeper(lines, i, j + 1)
    {
      assert Deeper(lines, i, j);
    }
  }

  /** The scopes left by `PrepareClosings` are those whose block contains line `j`. */
  ghost predicate Prepared(lines: seq<Line>, stack0: seq<Scope>, stack: seq<Scope>, j: nat)
    requires j < |lines|
  {
    && |stack| <= |stack0| && Ats(stack) == Ats(stack0)[..|stack|]
    && Interleaved(stack)
    && (forall k :: 0 <= k < |stack| ==> Records(lines, stack[k], j + 1) && |stack[k].bodyIndent| <= |lines[j].indent|)
    && (forall k :: 0 <= k < |stack| ==> stack[k].bodyIndent != "" && stack[k].kind == stack0[k].kind)
    && Ats(stack) == Alive(lines, Opened(lines, j), j + 1)
  }

  lemma {:induction false} CutStack(lines: seq<Line>, stack0: seq<Scope>, m: nat, j: nat)
    requires j < |lines| && lines[j].significant && StackFits(lines, stack0, j) && m <= |stack0|
    requires forall k :: 0 <= k < |stack0| ==> stack0[k].bodyIndent != ""
    requires forall k :: 0 <= k < m ==> |stack0[k].bodyIndent| <= |lines[j].indent|
    requires forall k :: m <= k < |stack0| ==> |lines[j].indent| < |stack0[k].bodyIndent|
    ensures Prepared(lines, stack0, stack0[..m], j)
  {
    var ats := Ats(stack0);
    OpenedBelow(lines, j);
    forall k | 0 <= k < |ats|
      ensures ats[k] < j && (k < m <==> NotLeft(lines, ats[k], j))
      ensures Records(lines, stack0[k], j + 1)
    {
      assert Records(lines, stack0[k], j);
    }
    AliveNext(lines, Opened(lines, j), ats, m, j);
    assert Ats(stack0[..m]) == ats[..m];
  }

  lemma {:induction false} FillBody(lines: seq<Line>, stack0: seq<Scope>, stack: seq<Scope>, j: nat)
    requires j < |lines| && lines[j].significant && StackFits(lines, stack0, j) && stack0 != []
    requires var n := |stack0|;
      && stack0[n - 1].bodyIndent == "" && |lines[j].indent| > |stack0[n - 1].headerIndent|
      && stack == stack0[n - 1 := stack0[n - 1].(bodyIndent := lines[j].indent)]
    ensures Prepared(lines, stack0, stack, j)
  {
    hide Opened, Alive, Live, NotLeft, HasKind, Deeper, Interleaved;
    var ats, n := Ats(stack0), |stack0|;
    FillInterleaved(stack0, stack, lines[j].indent);
    OpenedBelow(lines, j);
    forall k | 0 <= k < n
      ensures ats[k] < j && NotLeft(lines, ats[k], j)
      ensures Records(lines, stack[k], j + 1) && |stack[k].bodyIndent| <= |lines[j].indent|
    {
      FillRecords(lines, stack0[k], stack[k], j);
    }
    hide Records;
    AliveNext(lines, Opened(lines, j), ats, n, j);
    assert Ats(stack) == ats == ats[..n];
  }

  lemma {:induction false} FillRecords(lines: seq<Line>, s0: Scope, s: Scope, j: nat)
    requires j < |lines| && lines[j].significant && Records(lines, s0, j) && s.bodyIndent != "" && |s.bodyIndent| <= |lines[j].indent|
    requires s == s0 || (s0.bodyIndent == "" && s == s0.(bodyIndent := lines[j].indent))
    ensures Records(lines, s, j + 1)
    ensures s0.at < j && NotLeft(lines, s0.at, j)
  {
    hide HasKind;
  }

  /** The first body line completes the top scope. */
  lemma {:induction false} FillInterleaved(stack0: seq<Scope>, stack: seq<Scope>, indent: string)
    requires Interleaved(stack0) && stack0 != []
    requires var n := |stack0|;
      && stack0[n - 1].bodyIndent == "" && |indent| > |stack0[n - 1].headerIndent|
      && stack == stack0[n - 1 := stack0[n - 1].(bodyIndent := indent)]
    ensures Interleaved(stack)
    ensures forall k :: 0 <= k < |stack| ==> stack[k].bodyIndent != "" && |stack[k].bodyIndent| <= |indent|
  {
  }

  lemma {:induction false} KeepDeeper(lines: seq<Line>, stack0: seq<Scope>, j: nat)
    requires j < |lines| && lines[j].significant && StackFits(lines, stack0, j)
    requires stack0 != [] && stack0[|stack0| - 1].bodyIndent == "" ==>
               |lines[j].indent| > |stack0[|stack0| - 1].headerIndent|
    ensures forall i :: i in Opened(lines, j) ==> i < |lines| && Deeper(lines, i, j + 1)
  {
    OpenedBelow(lines, j);
    AliveMembers(lines, Opened(lines, j), j);
    forall i | i in Opened(lines, j)
      ensures Deeper(lines, i, j + 1)
    {
      if FirstFrom(lines, i + 1) == j {
        assert Live(lines, i, j);
        assert i in Ats(stack0);
        var k :| 0 <= k < |stack0| && Ats(stack0)[k] == i;
        assert Records(lines, stack0[k], j);
      } else {
        assert Deeper(lines, i, j);
      }
    }
  }

  /** A significant line that is not rewritten as a header. */
  lemma {:induction false} PlainLine(lines: seq<Line>, stack0: seq<Scope>, stack: seq<Scope>, j: nat)
    requires j < |lines| && StackFits(lines, stack0, j) && Prepared(lines, stack0, stack, j)
    requires forall i :: i in Opened(lines, j) ==> i < |lines| && Deeper(lines, i, j + 1)
    requires !Opens(lines, Opened(lines, j), j)
    ensures StackFits(lines, stack, j + 1)
  {
  }

  /** A header pushed. */
  lemma {:induction false} HeaderLine(lines: seq<Line>, stack0: seq<Scope>, stack: seq<Scope>, j: nat)
    requires j < |lines| && StackFits(lines, stack0, j) && Prepared(lines, stack0, stack, j)
    requires forall i :: i in Opened(lines, j) ==> i < |lines| && Deeper(lines, i, j + 1)
    requires Opens(lines, Opened(lines, j), j)
    ensures var s := Scope(j, lines[j].header.value.kind, lines[j].indent, "");
      StackFits(lines, stack + [s], j + 1) && Ats(stack + [s]) == Ats(stack) + [j]
  {
    var s := Scope(j, lines[j].header.value.kind, lines[j].indent, "");
    var earlier := Opened(lines, j);
    assert Live(lines, j, j + 1);
    assert (earlier + [j])[..|earlier|] == earlier;
    assert Ats(stack + [s]) == Ats(stack) + [j];
    assert FirstFrom(lines, j + 1) >= j + 1;
  }

  // ---- The events written ----

  /**
   The braces match up and leave `open` open; the first `j` lines came out once each in order, each
   inside exactly the headers that enclose it; and exactly the headers of `Opened` opened.
   */
  ghost predicate Nests(lines: seq<Line>, t: Trace, open: seq<nat>, j: nat)
    requires j <= |lines|
  {
    && t.Trace? && t.open == open && t.openers == Opened(lines, j) && |t.nesting| == j
    && (forall k :: 0 <= k < j ==> t.nesting[k].0 == k)
    && (forall k :: 0 <= k < j ==> t.nesting[k].1 == Alive(lines, Opened(lines, k), k + 1))
  }

  ghost predicate CommasFit(lines: seq<Line>, es: seq<Event>) {
    forall e :: e in es && e.Close? ==> (e.comma <==> HasKind(lines, e.of, MatchArm))
  }

  predicate IsElse(lines: seq<Line>, i: nat) {
    i < |lines| && lines[i].header.Some? && lines[i].header.value.elseish
  }

  /** Of the rewritten headers whose blocks line `j` ends, `c` is the outermost. */
  ghost predicate EndsOutermost(lines: seq<Line>, c: nat, j: nat) {
    && j < |lines|
    && var before, after := Alive(lines, Opened(lines, j), j), Alive(lines, Opened(lines, j), j + 1);
    |after| < |before| && c == before[|after|]
  }

  /** Only `else` headers have a closing brace merged into them, and all do: that of the outermost block they end. */
  ghost predicate MergeFits(lines: seq<Line>, e: Event) {
    match e
    case Open(i) => !IsElse(lines, i)
    case CloseOpen(c, i) => IsElse(lines, i) && EndsOutermost(lines, c, i)
    case _ => true
  }

  ghost predicate MergesFit(lines: seq<Line>, es: seq<Event>) {
    forall e :: e in es ==> MergeFits(lines, e)
  }

  ghost predicate Written(lines: seq<Line>, es: seq<Event>, open: seq<nat>, j: nat)
    requires j <= |lines|
  {
    Nests(lines, ReadBack(es), open, j) && CommasFit(lines, es) && MergesFit(lines, es)
  }

  lemma {:induction false} WriteClose(lines: seq<Line>, es: seq<Event>, open: seq<nat>, comma: bool, j: nat)
    requires j <= |lines| && open != [] && Written(lines, es, open, j)
    requires comma <==> HasKind(lines, open[|open| - 1], MatchArm)
    ensures Written(lines, es + [Close(open[|open| - 1], comma)], open[..|open| - 1], j)
  {
  }

  /** Closes scopes from the innermost outward. */
  method WriteClosings(ghost lines: seq<Line>, es0: seq<Event>, closings: seq<Scope>, includeLast: bool,
      ghost ats: seq<nat>, ghost j: nat) returns (es: seq<Event>)
    requires j <= |lines| && Written(lines, es0, ats, j) && |closings| <= |ats|
    requires forall k :: 0 <= k < |closings| ==> closings[k].at == ats[|ats| - 1 - k] && HasKind(lines, closings[k].at, closings[k].kind)
    ensures var limit := if includeLast || |closings| == 0 then |closings| else |closings| - 1;
      Written(lines, es, ats[..|ats| - limit], j)
  {
    var limit := |closings|;
    if !includeLast && limit > 0 {
      limit := limit - 1;
    }
    es := es0;
    assert ats[..|ats|] == ats;
    for i := 0 to limit
      invariant Written(lines, es, ats[..|ats| - i], j)
    {
      ghost var open := ats[..|ats| - i];
      WriteClose(lines, es, open, closings[i].kind == MatchArm, j);
      assert open[..|open| - 1] == ats[..|ats| - (i + 1)];
      es := es + [Close(closings[i].at, closings[i].kind == MatchArm)];
    }
  }

  /** The line's event and what it does to the open braces, when the line sits inside `inside`. */
  ghost predicate WritesLine(e: Event, open: seq<nat>, inside: seq<nat>, open': seq<nat>, j: nat) {
    match e
    case Raw(k) => k == j && inside == open && open' == open
    case Open(k) => k == j && inside == open && open' == open + [j]
    case CloseOpen(c, k) => k == j && open == inside + [c] && open' == inside + [j]
    case Close(_, _) => false
  }

  lemma {:induction false} NestsLine(lines: seq<Line>, t: Trace, open: seq<nat>, e: Event, inside: seq<nat>, open': seq<nat>, j: nat)
    requires j < |lines| && Nests(lines, t, open, j)
    requires WritesLine(e, open, inside, open', j) && (e.Raw? <==> !Opens(lines, Opened(lines, j), j))
    requires inside == Alive(lines, Opened(lines, j), j + 1)
    ensures Nests(lines, Step(t, e), open', j + 1)
  {
    hide Opens, Alive, Live, FirstFrom;
    if e.CloseOpen? {
      assert open[..|open| - 1] == inside;
    }
    assert Step(t, e).nesting == t.nesting + [(j, inside)];
  }

  lemma {:induction false} WriteLine(lines: seq<Line>, es: seq<Event>, open: seq<nat>, e: Event, inside: seq<nat>, open': seq<nat>, j: nat)
    requires j < |lines| && Written(lines, es, open, j)
    requires WritesLine(e, open, inside, open', j) && (e.Raw? <==> !Opens(lines, Opened(lines, j), j))
    requires inside == Alive(lines, Opened(lines, j), j + 1) && MergeFits(lines, e)
    ensures Written(lines, es + [e], open', j + 1)
  {
    ReadBackSnoc(es, e);
    NestsLine(lines, ReadBack(es), open, e, inside, open', j);
  }

  // ---- The rewriter ----

  /** One line: the new stack, the events so far, and whether the line was rewritten as a header. */
  method RewriteLine(lines: seq<Line>, j: nat, stack0: seq<Scope>, es0: seq<Event>)
      returns (step: Option<(seq<Scope>, seq<Event>, bool)>)
    requires j < |lines| && StackFits(lines, stack0, j) && Written(lines, es0, Ats(stack0), j)
    ensures step.None? ==> !Rewritable(lines)
    ensures step.Some? ==>
      && StackFits(lines, step.value.0, j + 1)
      && Written(lines, step.value.1, Ats(step.value.0), j + 1)
      && (step.value.2 <==> Opens(lines, Opened(lines, j), j))
  {
    var line := lines[j];
    if !line.significant {
      SkipLine(lines, stack0, j);
      assert Opened(lines, j + 1) == Opened(lines, j);
      WriteLine(lines, es0, Ats(stack0), Raw(j), Ats(stack0), Ats(stack0), j);
      return Some((stack0, es0 + [Raw(j)], false));
    }
    var stack, closings, ok := PrepareClosings(stack0, line.indent);
    if !ok {
      FailingHeader(lines, stack0, j);
      return None;
    }
    PreparedAfter(lines, stack0, stack, closings, j);
    var headerOK := line.header.Some?;
    if headerOK && line.header.value.elseish {
      headerOK := |closings| > 0 && closings[|closings| - 1].kind == BlockScope;
    }
    if headerOK && line.header.value.requiresMatch {
      headerOK := |stack| > 0 && stack[|stack| - 1].kind == MatchScope;
    }
    DecideHeader(lines, stack0, stack, closings, j);
    KeepDeeper(lines, stack0, j);
    if headerOK {
      HeaderLine(lines, stack0, stack, j);
      var es := EmitHeader(lines, j, stack0, stack, closings, es0);
      return Some((stack + [Scope(j, line.header.value.kind, line.indent, "")], es, true));
    }
    PlainLine(lines, stack0, stack, j);
    var es := EmitPlain(lines, j, stack0, stack, closings, es0);
    return Some((stack, es, false));
  }

  /** The closings are the scopes cut off the stack, innermost first. */
  ghost predicate ClosingsFit(lines: seq<Line>, ats0: seq<nat>, ats: seq<nat>, closings: seq<Scope>) {
    && ats <= ats0 && |closings| == |ats0| - |ats|
    && (forall k :: 0 <= k < |closings| ==>
          closings[k].at == ats0[|ats0| - 1 - k] && HasKind(lines, closings[k].at, closings[k].kind))
  }

  method EmitPlain(lines: seq<Line>, j: nat, stack0: seq<Scope>, stack: seq<Scope>, closings: seq<Scope>, es0: seq<Event>)
      returns (es: seq<Event>)
    requires j < |lines| && !Opens(lines, Opened(lines, j), j)
    requires Written(lines, es0, Ats(stack0), j) && ClosingsFit(lines, Ats(stack0), Ats(stack), closings)
    requires Ats(stack) == Alive(lines, Opened(lines, j), j + 1)
    ensures Written(lines, es, Ats(stack), j + 1)
  {
    hide Written, Alive, Opened, Opens, HasKind;
    es := WriteClosings(lines, es0, closings, true, Ats(stack0), j);
    assert Ats(stack0)[..|stack|] == Ats(stack);
    WriteLine(lines, es, Ats(stack), Raw(j), Ats(stack), Ats(stack), j);
    es := es + [Raw(j)];
  }

  method EmitHeader(lines: seq<Line>, j: nat, stack0: seq<Scope>, stack: seq<Scope>, closings: seq<Scope>, es0: seq<Event>)
      returns (es: seq<Event>)
    requires j < |lines| && Opens(lines, Opened(lines, j), j)
    requires Written(lines, es0, Ats(stack0), j) && ClosingsFit(lines, Ats(stack0), Ats(stack), closings)
    requires Ats(stack0) == Alive(lines, Opened(lines, j), j) && Ats(stack) == Alive(lines, Opened(lines, j), j + 1)
    ensures Written(lines, es, Ats(stack) + [j], j + 1)
  {
    hide Written, Alive, Opened, HasKind;
    var elseish := lines[j].header.value.elseish;
    assert elseish ==> |closings| > 0;
    ghost var ats0, ats := Ats(stack0), Ats(stack);
    es := WriteClosings(lines, es0, closings, !elseish, ats0, j);
    assert ats0[..|ats|] == ats;
    if elseish && |closings| > 0 {
      var c := closings[|closings| - 1].at;
      assert ats0[..|ats| + 1] == ats + [c];
      assert EndsOutermost(lines, c, j);
      WriteLine(lines, es, ats + [c], CloseOpen(c, j), ats, ats + [j], j);
      es := es + [CloseOpen(c, j)];
    } else {
      WriteLine(lines, es, ats, Open(j), ats, ats + [j], j);
      es := es + [Open(j)];
    }
  }

  lemma {:induction false} FailingHeader(lines: seq<Line>, stack0: seq<Scope>, j: nat)
    requires j < |lines| && lines[j].significant && StackFits(lines, stack0, j) && stack0 != []
    requires stack0[|stack0| - 1].bodyIndent == "" && |lines[j].indent| <= |stack0[|stack0| - 1].headerIndent|
    ensures !Rewritable(lines)
  {
    hide Opened, Alive, Live, HasKind, Interleaved;
    var s := stack0[|stack0| - 1];
    assert Records(lines, s, j);
    AliveAt(lines, Opened(lines, j), j, |stack0| - 1);
    OpenedGrows(lines, j, |lines|);
    assert FirstFrom(lines, s.at + 1) == j;
    assert !Deeper(lines, s.at, |lines|);
  }

  lemma {:induction false} PreparedAfter(lines: seq<Line>, stack0: seq<Scope>, stack: seq<Scope>, closings: seq<Scope>, j: nat)
    requires j < |lines| && lines[j].significant && StackFits(lines, stack0, j)
    requires var n := |stack0|;
      if n > 0 && stack0[n - 1].bodyIndent == "" then
        && |lines[j].indent| > |stack0[n - 1].headerIndent|
        && closings == [] && stack == stack0[n - 1 := stack0[n - 1].(bodyIndent := lines[j].indent)]
      else
        && |stack| <= n && stack == stack0[..|stack|] && |closings| == n - |stack|
        && (forall k :: 0 <= k < |closings| ==> closings[k] == stack0[n - 1 - k])
        && (forall k :: 0 <= k < |stack| ==> |stack0[k].bodyIndent| <= |lines[j].indent|)
        && (forall k :: |stack| <= k < n ==> |lines[j].indent| < |stack0[k].bodyIndent|)
    ensures Prepared(lines, stack0, stack, j) && ClosingsFit(lines, Ats(stack0), Ats(stack), closings)
    ensures forall k :: 0 <= k < |closings| ==> closings[k].kind == stack0[|stack0| - 1 - k].kind
  {
    var n := |stack0|;
    if n > 0 && stack0[n - 1].bodyIndent == "" {
      FillBody(lines, stack0, stack, j);
    } else {
      CutStack(lines, stack0, |stack|, j);
      forall k | 0 <= k < |closings|
        ensures HasKind(lines, closings[k].at, closings[k].kind)
      {
        assert Records(lines, stack0[n - 1 - k], j);
      }
    }
  }

  /** The rewriter's three tests together decide `Opens`. */
  lemma {:induction false} DecideHeader(lines: seq<Line>, stack0: seq<Scope>, stack: seq<Scope>, closings: seq<Scope>, j: nat)
    requires j < |lines| && lines[j].significant && StackFits(lines, stack0, j) && Prepared(lines, stack0, stack, j)
    requires |closings| == |stack0| - |stack|
    requires forall k :: 0 <= k < |closings| ==> closings[k].kind == stack0[|stack0| - 1 - k].kind
    ensures Opens(lines, Opened(lines, j), j) <==>
      && lines[j].header.Some?
      && (lines[j].header.value.elseish ==> |closings| > 0 && closings[|closings| - 1].kind == BlockScope)
      && (lines[j].header.value.requiresMatch ==> |stack| > 0 && stack[|stack| - 1].kind == MatchScope)
  {
  }

  ghost predicate Bodied(stack: seq<Scope>) {
    forall k :: 0 <= k < |stack| ==> stack[k].bodyIndent != ""
  }

  /** Closes what is still open at the end of the file; fails on a header that never got a body. */
  method CloseRemaining(lines: seq<Line>, stack: seq<Scope>, es0: seq<Event>) returns (ok: bool, es: seq<Event>)
    requires Written(lines, es0, Ats(stack), |lines|)
    requires forall k :: 0 <= k < |stack| ==> HasKind(lines, stack[k].at, stack[k].kind)
    ensures ok <==> Bodied(stack)
    ensures ok ==> Written(lines, es, [], |lines|)
  {
    hide Written;
    es := es0;
    ghost var ats := Ats(stack);
    assert ats[..|ats|] == ats;
    var i := |stack|;
    while i > 0
      invariant 0 <= i <= |stack|
      invariant forall k :: i <= k < |stack| ==> stack[k].bodyIndent != ""
      invariant Written(lines, es, ats[..i], |lines|)
    {
      i := i - 1;
      if stack[i].bodyIndent == "" {
        return false, es;
      }
      WriteClose(lines, es, ats[..i + 1], stack[i].kind == MatchArm, |lines|);
      assert ats[..i + 1][..i] == ats[..i];
      es := es + [Close(stack[i].at, stack[i].kind == MatchArm)];
    }
    return true, es;
  }

  /** At the end, the scopes on the stack all have bodies exactly when every rewritten header has one. */
  lemma {:induction false} BodiesAtEnd(lines: seq<Line>, stack: seq<Scope>)
    requires StackFits(lines, stack, |lines|)
    ensures forall k :: 0 <= k < |stack| ==> HasKind(lines, stack[k].at, stack[k].kind)
    ensures Rewritable(lines) <==> Opened(lines, |lines|) != [] && Bodied(stack)
  {
    var headers := Opened(lines, |lines|);
    hide Opened, Alive, Interleaved, HasKind, Deeper;
    forall k | 0 <= k < |stack|
      ensures stack[k].at in headers && stack[k].at < |lines| && HasKind(lines, stack[k].at, stack[k].kind)
      ensures stack[k].bodyIndent != "" <==> FirstFrom(lines, stack[k].at + 1) < |lines|
    {
      assert Records(lines, stack[k], |lines|);
      AliveAt(lines, headers, |lines|, k);
    }
    AliveMembers(lines, headers, |lines|);
    forall i | i in headers && i < |lines|
      ensures Bodied(stack) ==> FirstFrom(lines, i + 1) < |lines|
    {
      if i in Ats(stack) {
        var k :| 0 <= k < |stack| && Ats(stack)[k] == i;
        assert stack[k].at == i;
      }
    }
  }

  /**
   Succeeds exactly on rewritable input.  On success the braces match up, lines come out once
   each in order, each significant line sits inside exactly the rewritten headers whose indented
   block contains it, and what is rewritten is exactly `Opened`.
   */
  method Rewrite(lines: seq<Line>) returns (result: Option<seq<Event>>)
    ensures result.Some? <==> Rewritable(lines)
    ensures result.Some? ==> Written(lines, result.value, [], |lines|)
  {
    var es: seq<Event> := [];
    var stack: seq<Scope> := [];
    var changed := false;
    for j := 0 to |lines|
      invariant StackFits(lines, stack, j)
      invariant Written(lines, es, Ats(stack), j)
      invariant changed <==> Opened(lines, j) != []
    {
      var step := RewriteLine(lines, j, stack, es);
      if step.None? {
        return None;
      }
      stack, es, changed := step.value.0, step.value.1, changed || step.value.2;
    }
    BodiesAtEnd(lines, stack);
    var ok;
    ok, es := CloseRemaining(lines, stack, es);
    if !ok || !changed {
      return None;
    }
    return Some(es);
  }

  /** Brace nesting is indentation nesting. */
  lemma {:induction false} BracesFollowIndentation(lines: seq<Line>, es: seq<Event>, i: nat, j: nat)
    requires Written(lines, es, [], |lines|)
    requires i in Opened(lines, |lines|) && j < |lines|
    ensures i in ReadBack(es).nesting[j].1 <==> Encloses(lines, i, j)
  {
    AliveMembers(lines, Opened(lines, j), j + 1);
    OpenedGrows(lines, j, |lines|);
  }

  /** Every header rewritten is closed exactly once, on its own line or merged into the next header. */
  lemma {:induction false} EveryHeaderClosed(lines: seq<Line>, es: seq<Event>)
    requires Written(lines, es, [], |lines|)
    ensures multiset(ReadBack(es).closers) == multiset(Opened(lines, |lines|))
  {
    BracesConserved(es);
  }

  // ---- There is no other such output ----

  /** Openers are among the lines written. */
  lemma {:induction false} OpenersBelow(es: seq<Event>, j: nat)
    requires var t := ReadBack(es); t.Trace? && |t.nesting| == j && forall k :: 0 <= k < j ==> t.nesting[k].0 == k
    ensures forall i :: i in ReadBack(es).openers ==> i < j
  {
    if es != [] {
      var before, t := ReadBack(es[..|es| - 1]), ReadBack(es);
      var n := |before.nesting|;
      assert forall k :: 0 <= k < n ==> t.nesting[k] == before.nesting[k];
      OpenersBelow(es[..|es| - 1], n);
      assert n < j ==> t.nesting[n].0 == n;
    }
  }

  /** The headers that are open when a line has been written and nothing was closed since. */
  ghost function OpenAt(lines: seq<Line>, j: nat): seq<nat>
    requires j <= |lines|
  {
    Alive(lines, Opened(lines, j), j)
  }

  lemma {:induction false} OpenAtStep(lines: seq<Line>, j: nat)
    requires j < |lines|
    ensures var inside := Alive(lines, Opened(lines, j), j + 1);
      OpenAt(lines, j + 1) == if Opens(lines, Opened(lines, j), j) then inside + [j] else inside
  {
    var earlier := Opened(lines, j);
    if Opens(lines, earlier, j) {
      assert (earlier + [j])[..|earlier|] == earlier;
      assert Live(lines, j, j + 1);
    }
  }

  /** What was written before the last event. */
  ghost predicate WrittenBefore(lines: seq<Line>, es: seq<Event>, open: seq<nat>, j: nat)
    requires j <= |lines| && es != []
  {
    var p, e := es[..|es| - 1], es[|es| - 1];
    match e
    case Close(c, comma) => Written(lines, p, open + [c], j) && (comma <==> HasKind(lines, c, MatchArm))
    case Raw(i) => i + 1 == j && Written(lines, p, open, i) && !Opens(lines, Opened(lines, i), i) && open == OpenAt(lines, j)
    case Open(i) =>
      && i + 1 == j && Opens(lines, Opened(lines, i), i) && !IsElse(lines, i) && open == OpenAt(lines, j)
      && Written(lines, p, Alive(lines, Opened(lines, i), j), i)
    case CloseOpen(c, i) =>
      && i + 1 == j && Opens(lines, Opened(lines, i), i) && IsElse(lines, i) && open == OpenAt(lines, j)
      && EndsOutermost(lines, c, i) && Written(lines, p, Alive(lines, Opened(lines, i), j) + [c], i)
  }

  lemma {:induction false} OpenedEnds(lines: seq<Line>, earlier: seq<nat>, j: nat)
    requires j < |lines| && Opened(lines, j + 1) == earlier + [j]
    ensures Opens(lines, Opened(lines, j), j) && Opened(lines, j) == earlier
  {
    hide Opens, Alive;
    OpenedBelow(lines, j);
    assert j !in Opened(lines, j) && (earlier + [j])[|earlier|] == j && j in Opened(lines, j + 1);
    assert earlier == Opened(lines, j + 1)[..|earlier|] == Opened(lines, j);
  }

  lemma {:induction false} OpenedHas(lines: seq<Line>, j: nat)
    requires j < |lines|
    ensures if Opens(lines, Opened(lines, j), j) then j in Opened(lines, j + 1) else Opened(lines, j + 1) == Opened(lines, j)
  {
    var earlier := Opened(lines, j);
    assert (earlier + [j])[|earlier|] == j;
  }

  lemma {:induction false} LineBefore(lines: seq<Line>, es: seq<Event>, open: seq<nat>, j: nat)
    requires j <= |lines| && es != [] && Written(lines, es, open, j) && !es[|es| - 1].Close?
    ensures j > 0 && es[|es| - 1].line == j - 1
    ensures Opens(lines, Opened(lines, j - 1), j - 1) <==> !es[|es| - 1].Raw?
    ensures ReadBack(es[..|es| - 1]).openers == Opened(lines, j - 1)
  {
    hide Opens, Alive, HasKind, MergesFit, CommasFit, Opened;
    var before, t, e := ReadBack(es[..|es| - 1]), ReadBack(es), es[|es| - 1];
    assert t.nesting[|t.nesting| - 1].0 == e.line;
    if e.Raw? {
      assert forall k :: 0 <= k < j - 1 ==> t.nesting[k] == before.nesting[k];
      OpenersBelow(es[..|es| - 1], j - 1);
      OpenedHas(lines, j - 1);
    } else {
      OpenedEnds(lines, before.openers, j - 1);
    }
  }

  lemma {:induction false} StepBack(lines: seq<Line>, es: seq<Event>, open: seq<nat>, j: nat)
    requires j <= |lines| && es != [] && Written(lines, es, open, j)
    ensures WrittenBefore(lines, es, open, j)
  {
    hide Opens, Alive, Opened, HasKind, IsElse, EndsOutermost, CommasFit, MergesFit;
    EventsBefore(lines, es);
    if es[|es| - 1].Close? {
      CloseBack(lines, es, open, j);
    } else {
      LineBefore(lines, es, open, j);
      OpenAtStep(lines, j - 1);
      LineBack(lines, es, open, j);
    }
  }

  lemma {:induction false} CloseBack(lines: seq<Line>, es: seq<Event>, open: seq<nat>, j: nat)
    requires j <= |lines| && es != [] && es[|es| - 1].Close? && Nests(lines, ReadBack(es), open, j)
    ensures Nests(lines, ReadBack(es[..|es| - 1]), open + [es[|es| - 1].of], j)
  {
    hide Alive, Opened;
    var before, e := ReadBack(es[..|es| - 1]), es[|es| - 1];
    assert before.open == before.open[..|before.open| - 1] + [e.of];
  }

  /** Before a line's event the braces stood as the line found them. */
  lemma {:induction false} LineBack(lines: seq<Line>, es: seq<Event>, open: seq<nat>, j: nat)
    requires 0 < j <= |lines| && es != [] && !es[|es| - 1].Close? && Nests(lines, ReadBack(es), open, j)
    requires ReadBack(es[..|es| - 1]).openers == Opened(lines, j - 1)
    ensures var p, e, inside := es[..|es| - 1], es[|es| - 1], Alive(lines, Opened(lines, j - 1), j);
      && Nests(lines, ReadBack(p), if e.CloseOpen? then inside + [e.of] else inside, j - 1)
      && open == if e.Raw? then inside else inside + [e.line]
  {
    hide Alive, Opened;
    var before, t, e := ReadBack(es[..|es| - 1]), ReadBack(es), es[|es| - 1];
    assert forall k :: 0 <= k < j - 1 ==> t.nesting[k] == before.nesting[k];
    assert t.nesting[j - 1].1 == Alive(lines, Opened(lines, j - 1), j);
    if e.CloseOpen? {
      assert before.open == before.open[..|before.open| - 1] + [e.of];
    }
  }

  lemma {:induction false} EventsBefore(lines: seq<Line>, es: seq<Event>)
    requires es != [] && CommasFit(lines, es) && MergesFit(lines, es)
    ensures var p, e := es[..|es| - 1], es[|es| - 1];
      CommasFit(lines, p) && MergesFit(lines, p) && MergeFits(lines, e) && (e.Close? ==> (e.comma <==> HasKind(lines, e.of, MatchArm)))
  {
    hide MergeFits, HasKind;
    assert es[|es| - 1] in es && forall e :: e in es[..|es| - 1] ==> e in es;
  }

  lemma {:induction false} NothingWritten(lines: seq<Line>, open: seq<nat>, j: nat)
    requires j <= |lines| && Written(lines, [], open, j)
    ensures j == 0 && open == []
  {
  }

  /** Only scopes that were open after the last line can be closed after it. */
  lemma {:induction false} OpenPrefix(lines: seq<Line>, es: seq<Event>, open: seq<nat>, j: nat)
    requires j <= |lines| && Written(lines, es, open, j)
    ensures open <= OpenAt(lines, j)
  {
    hide Written, OpenAt;
    if es == [] {
      NothingWritten(lines, open, j);
    } else {
      StepBack(lines, es, open, j);
      if es[|es| - 1].Close? {
        OpenPrefix(lines, es[..|es| - 1], open + [es[|es| - 1].of], j);
      }
    }
  }

  /** Where the last event of one output closes a scope, so does that of the other. */
  lemma {:induction false} SameLast(lines: seq<Line>, a: seq<Event>, b: seq<Event>, open: seq<nat>, j: nat)
    requires j <= |lines| && Written(lines, a, open, j) && Written(lines, b, open, j) && a != []
    ensures b != [] && a[|a| - 1] == b[|b| - 1]
  {
    hide Written, OpenAt, Opens, Alive, HasKind, IsElse;
    var e := a[|a| - 1];
    NoneOpen(lines);
    StepBack(lines, a, open, j);
    if e.Close? {
      OpenPrefix(lines, a[..|a| - 1], open + [e.of], j);
      assert (open + [e.of])[|open|] == OpenAt(lines, j)[|open|];
    }
    if b == [] {
      NothingWritten(lines, open, j);
    } else {
      StepBack(lines, b, open, j);
      if b[|b| - 1].Close? {
        OpenPrefix(lines, b[..|b| - 1], open + [b[|b| - 1].of], j);
        assert (open + [b[|b| - 1].of])[|open|] == OpenAt(lines, j)[|open|];
        assert e.Close?;
      }
    }
  }

  lemma {:induction false} NoneOpen(lines: seq<Line>)
    ensures OpenAt(lines, 0) == []
  {
  }

  lemma {:induction false} SameOutput(lines: seq<Line>, a: seq<Event>, b: seq<Event>, open: seq<nat>, j: nat)
    requires j <= |lines| && Written(lines, a, open, j) && Written(lines, b, open, j)
    ensures a == b
  {
    hide Written, OpenAt, Opens, Alive, HasKind, IsElse;
    if a == [] {
      if b != [] {
        SameLast(lines, b, a, open, j);
      }
    } else {
      SameLast(lines, a, b, open, j);
      var p, q, e := a[..|a| - 1], b[..|b| - 1], a[|a| - 1];
      StepBack(lines, a, open, j);
      StepBack(lines, b, open, j);
      match e {
        case Close(c, _) => SameOutput(lines, p, q, open + [c], j);
        case Raw(i) => SameOutput(lines, p, q, open, i);
        case Open(i) => SameOutput(lines, p, q, Alive(lines, Opened(lines, i), j), i);
        case CloseOpen(c, i) => SameOutput(lines, p, q, Alive(lines, Opened(lines, i), j) + [c], i);
      }
      assert a == p + [e] && b == q + [e];
    }
  }

  /** The indentation determines the output: whatever has the properties promised is what the rewriter writes. */
  lemma {:induction false} OutputUnique(lines: seq<Line>, a: seq<Event>, b: seq<Event>)
    requires Written(lines, a, [], |lines|) && Written(lines, b, [], |lines|)
    ensures a == b
  {
    SameOutput(lines, a, b, [], |lines|);
  }

  /** A rewritten header is written once, with the closing brace before it exactly if it is an `else` header. */
  lemma {:induction false} ElseMerges(lines: seq<Line>, es: seq<Event>, i: nat)
    requires Written(lines, es, [], |lines|) && i in Opened(lines, |lines|)
    ensures Open(i) in es <==> !IsElse(lines, i)
    ensures (exists c :: CloseOpen(c, i) in es) <==> IsElse(lines, i)
    ensures forall c :: CloseOpen(c, i) in es ==> EndsOutermost(lines, c, i)
  {
    hide EndsOutermost, IsElse;
    OpenerWritten(es, i);
    forall e | e in es
      ensures MergeFits(lines, e)
    {
    }
  }

  lemma {:induction false} OpenerWritten(es: seq<Event>, i: nat)
    requires ReadBack(es).Trace? && i in ReadBack(es).openers
    ensures Open(i) in es || exists c :: CloseOpen(c, i) in es
  {
    if es != [] {
      var p, e := es[..|es| - 1], es[|es| - 1];
      if i in ReadBack(p).openers {
        OpenerWritten(p, i);
      } else {
        assert e in es && (e == Open(i) || (e.CloseOpen? && e == CloseOpen(e.of, i)));
      }
    }
  }
}
