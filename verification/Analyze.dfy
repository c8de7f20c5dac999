/**
 The repair pipeline: phases propose rewritten sources one after another, and a proposal is taken if
 the mode's score does not get worse.
 */
module Analyze {

  datatype Stage = Stage(errors: int, warnings: int)

  datatype Stats = Stats(parse: Stage, resolve: Stage, check: Stage, totalErrors: int, totalWarnings: int)

  datatype Change = Change(kind: string, message: string, offset: int)

  datatype Candidate = Candidate(source: string, changes: seq<Change>, skipped: nat)

  type Diagnostics = seq<string>

  /** The front end's verdict on a source; any deterministic function of it. */
  type Probe = string -> (Stats, Diagnostics)

  type Phase = (string, Diagnostics) -> Candidate

  // ---- Scores ----

  const AUTO := "auto"
  const REWRITE := "rewrite"
  const PARSE := "parse"
  const FRONTEND := "frontend"

  /** The counts a mode looks at, most important first. */
  function Ladder(mode: string, s: Stats): (r: seq<int>)
    ensures 3 <= |r| <= 4
  {
    if mode == PARSE then [s.parse.errors, s.totalErrors, s.totalWarnings]
    else if mode == FRONTEND then [s.totalErrors, s.parse.errors, s.totalWarnings]
    else [s.parse.errors, s.resolve.errors, s.check.errors, s.totalWarnings]
  }

  function CompareParseAssist(before: Stats, after: Stats): int {
    if after.parse.errors != before.parse.errors then if after.parse.errors < before.parse.errors then 1 else -1
    else if after.totalErrors != before.totalErrors then if after.totalErrors < before.totalErrors then 1 else -1
    else if after.totalWarnings != before.totalWarnings then if after.totalWarnings < before.totalWarnings then 1 else -1
    else 0
  }

  function CompareAutoAssist(before: Stats, after: Stats): int {
    if after.parse.errors != before.parse.errors then if after.parse.errors < before.parse.errors then 1 else -1
    else if after.resolve.errors != before.resolve.errors then if after.resolve.errors < before.resolve.errors then 1 else -1
    else if after.check.errors != before.check.errors then if after.check.errors < before.check.errors then 1 else -1
    else if after.totalWarnings != before.totalWarnings then if after.totalWarnings < before.totalWarnings then 1 else -1
    else 0
  }

  function CompareFrontEndAssist(before: Stats, after: Stats): int {
    if after.totalErrors != before.totalErrors then if after.totalErrors < before.totalErrors then 1 else -1
    else if after.parse.errors != before.parse.errors then if after.parse.errors < before.parse.errors then 1 else -1
    else if after.totalWarnings != before.totalWarnings then if after.totalWarnings < before.totalWarnings then 1 else -1
    else 0
  }

  /** The comparison of every mode but the rewrite mode; unknown modes are compared like the default. */
  function Compare(mode: string, before: Stats, after: Stats): int {
    if mode == PARSE then CompareParseAssist(before, after)
    else if mode == FRONTEND then CompareFrontEndAssist(before, after)
    else CompareAutoAssist(before, after)
  }

  /** The first place where two ladders differ decides. */
  predicate LexBelow(a: seq<int>, b: seq<int>)
    requires |a| == |b|
  {
    a != [] && (a[0] < b[0] || (a[0] == b[0] && LexBelow(a[1..], b[1..])))
  }

  /** A comparison is the lexicographic order of the ladders. */
  lemma {:induction false} CompareIsLex(mode: string, a: Stats, b: Stats)
    ensures Compare(mode, a, b) > 0 <==> LexBelow(Ladder(mode, b), Ladder(mode, a))
    ensures Compare(mode, a, b) < 0 <==> LexBelow(Ladder(mode, a), Ladder(mode, b))
    ensures Compare(mode, a, b) == 0 <==> Ladder(mode, a) == Ladder(mode, b)
  {
    var x, y := Ladder(mode, a), Ladder(mode, b);
    LexUnfold(x, y);
    LexUnfold(y, x);
  }

  /** Ladders have three or four rungs. */
  lemma {:induction false} LexUnfold(x: seq<int>, y: seq<int>)
    requires 3 <= |x| <= 4 && |x| == |y|
    ensures LexBelow(x, y) <==>
      || x[0] < y[0]
      || (x[0] == y[0] && (x[1] < y[1] || (x[1] == y[1] && (x[2] < y[2] || (x[2] == y[2] && |x| == 4 && x[3] < y[3])))))
  {
    assert LexBelow(x[1..], y[1..]) <==> x[1] < y[1] || (x[1] == y[1] && LexBelow(x[1..][1..], y[1..][1..]));
    assert x[1..][1..] == x[2..] && y[1..][1..] == y[2..];
    assert LexBelow(x[2..], y[2..]) <==> x[2] < y[2] || (x[2] == y[2] && LexBelow(x[2..][1..], y[2..][1..]));
    assert x[2..][1..] == x[3..] && y[2..][1..] == y[3..];
    if |x| == 4 {
      assert LexBelow(x[3..], y[3..]) <==> x[3] < y[3] || (x[3] == y[3] && LexBelow(x[3..][1..], y[3..][1..]));
      assert |x[3..][1..]| == 0;
    } else {
      assert |x[3..]| == 0;
    }
  }

  /** No worse is a total preorder, and strictly better anywhere along the way is strictly better. */
  lemma {:induction false} CompareChains(mode: string, a: Stats, b: Stats, c: Stats)
    ensures Compare(mode, a, a) == 0 && Compare(mode, b, a) == -Compare(mode, a, b)
    ensures Compare(mode, a, b) >= 0 && Compare(mode, b, c) >= 0 ==>
      Compare(mode, a, c) >= 0 && (Compare(mode, a, c) > 0 <==> Compare(mode, a, b) > 0 || Compare(mode, b, c) > 0)
  {
  }

  function IsImproved(mode: string, before: Stats, after: Stats, changes: nat): bool {
    if mode == REWRITE then changes > 0 else Compare(mode, before, after) > 0
  }

  function IsAccepted(mode: string, before: Stats, after: Stats, changes: nat, skipped: nat): bool {
    (changes == 0 && skipped == 0) || mode == REWRITE || Compare(mode, before, after) >= 0
  }

  function ExplainRejected(mode: string, before: Stats, after: Stats): string {
    if after.parse.errors > before.parse.errors then "parse_regression_blocked"
    else if mode == AUTO && after.resolve.errors > before.resolve.errors then "resolve_regression_blocked"
    else if mode == AUTO && after.check.errors > before.check.errors then "check_regression_blocked"
    else if after.totalErrors > before.totalErrors then "front_end_regression_blocked"
    else if after.totalWarnings > before.totalWarnings then "warning_regression_blocked"
    else "no_improvement"
  }

  function ExplainAccepted(mode: string, before: Stats, after: Stats, changes: nat, proposed: bool): string {
    if !proposed || (changes == 0 && before == after) then "already_clean"
    else if after.parse.errors < before.parse.errors then "parse_errors_reduced"
    else if after.resolve.errors < before.resolve.errors then "resolve_errors_reduced"
    else if after.check.errors < before.check.errors then "check_errors_reduced"
    else if after.totalWarnings < before.totalWarnings then "warnings_reduced"
    else if mode == REWRITE && changes > 0 then "rewrite_mode_applied"
    else if changes > 0 then "non_regressing_rewrite_accepted"
    else "accepted"
  }

  /** A rejection always names a count that rose exactly in the known modes; others are compared like the default. */
  lemma {:induction false} RejectionExplainedIff(mode: string)
    ensures (forall a, b, changes: nat, skipped: nat ::
               !IsAccepted(mode, a, b, changes, skipped) ==> ExplainRejected(mode, a, b) != "no_improvement")
       <==> mode in [AUTO, PARSE, FRONTEND, REWRITE]
  {
    if mode !in [AUTO, PARSE, FRONTEND, REWRITE] {
      var none := Stage(0, 0);
      var before, after := Stats(none, none, Stage(1, 0), 1, 0), Stats(none, Stage(1, 0), none, 1, 0);
      assert !IsAccepted(mode, before, after, 1, 0) && ExplainRejected(mode, before, after) == "no_improvement";
    }
  }

  /** Resolve errors that take the place of check errors are refused under an unknown mode, without a reason. */
  lemma {:induction false} RejectionUnexplained()
    ensures var none := Stage(0, 0);
      var before, after := Stats(none, none, Stage(1, 0), 1, 0), Stats(none, Stage(1, 0), none, 1, 0);
      !IsAccepted("other", before, after, 1, 0) && ExplainRejected("other", before, after) == "no_improvement"
  {
  }

  lemma {:induction false} AcceptedNotWorse(mode: string, before: Stats, after: Stats, changes: nat, skipped: nat)
    requires mode != REWRITE && (changes > 0 || skipped > 0) && IsAccepted(mode, before, after, changes, skipped)
    ensures Compare(mode, before, after) >= 0
  {
  }

  /** Acceptance protects the score in every mode but the rewrite mode, where a worse source is taken too. */
  lemma {:induction false} AcceptanceProtectsIff(mode: string)
    ensures (forall a, b, changes: nat :: changes > 0 && IsAccepted(mode, a, b, changes, 0) ==> Compare(mode, a, b) >= 0)
       <==> mode != REWRITE
  {
    if mode == REWRITE {
      var none := Stage(0, 0);
      var before, after := Stats(none, none, none, 0, 0), Stats(Stage(1, 0), none, none, 1, 0);
      assert IsAccepted(mode, before, after, 1, 0) && Compare(mode, before, after) < 0;
    }
  }

  // ---- Reasons ----

  /** A reason that stands for a count. */
  datatype Reason = Reason(text: string, count: Stats -> int)

  const PARSE_ERRORS: Stats -> int := (s: Stats) => s.parse.errors
  const RESOLVE_ERRORS: Stats -> int := (s: Stats) => s.resolve.errors
  const CHECK_ERRORS: Stats -> int := (s: Stats) => s.check.errors
  const TOTAL_ERRORS: Stats -> int := (s: Stats) => s.totalErrors
  const TOTAL_WARNINGS: Stats -> int := (s: Stats) => s.totalWarnings

  /** What a rejection looks at, first to last: the stages behind the parser in the default mode only. */
  function RejectionReasons(mode: string): seq<Reason> {
    [Reason("parse_regression_blocked", PARSE_ERRORS)]
    + (if mode == "auto" then [Reason("resolve_regression_blocked", RESOLVE_ERRORS), Reason("check_regression_blocked", CHECK_ERRORS)] else [])
    + [Reason("front_end_regression_blocked", TOTAL_ERRORS), Reason("warning_regression_blocked", TOTAL_WARNINGS)]
  }

  const ACCEPTANCE_REASONS := [
    Reason("parse_errors_reduced", PARSE_ERRORS), Reason("resolve_errors_reduced", RESOLVE_ERRORS),
    Reason("check_errors_reduced", CHECK_ERRORS), Reason("warnings_reduced", TOTAL_WARNINGS)]

  ghost predicate Higher(rs: seq<Reason>, k: nat, low: Stats, high: Stats)
    requires k < |rs|
  {
    rs[k].count(high) > rs[k].count(low)
  }

  /** Reason `k` is the first one whose count is higher in `high`. */
  ghost predicate FirstHigher(rs: seq<Reason>, k: nat, low: Stats, high: Stats) {
    k < |rs| && Higher(rs, k, low, high) && forall j :: 0 <= j < k ==> !Higher(rs, j, low, high)
  }

  ghost predicate NoneHigher(rs: seq<Reason>, low: Stats, high: Stats) {
    forall j :: 0 <= j < |rs| ==> !Higher(rs, j, low, high)
  }

  /** A rejection names the first count that rose, and says `no_improvement` if none did. */
  lemma {:induction false} RejectionNamesFirst(mode: string, before: Stats, after: Stats)
    ensures var rs, text := RejectionReasons(mode), ExplainRejected(mode, before, after);
      && (forall k: nat :: FirstHigher(rs, k, before, after) ==> text == rs[k].text)
      && (NoneHigher(rs, before, after) ==> text == "no_improvement")
  {
    var rs := RejectionReasons(mode);
    var n := |rs|;
    assert Higher(rs, 0, before, after) <==> after.parse.errors > before.parse.errors;
    assert n == 5 ==> (Higher(rs, 1, before, after) <==> after.resolve.errors > before.resolve.errors);
    assert n == 5 ==> (Higher(rs, 2, before, after) <==> after.check.errors > before.check.errors);
    assert Higher(rs, n - 2, before, after) <==> after.totalErrors > before.totalErrors;
    assert Higher(rs, n - 1, before, after) <==> after.totalWarnings > before.totalWarnings;
  }

  /** An acceptance that changed something names the first count that fell. */
  lemma {:induction false} AcceptanceNamesFirst(mode: string, before: Stats, after: Stats, changes: nat, proposed: bool)
    requires proposed && (changes > 0 || before != after)
    ensures var rs, text := ACCEPTANCE_REASONS, ExplainAccepted(mode, before, after, changes, proposed);
      && (forall k: nat :: FirstHigher(rs, k, after, before) ==> text == rs[k].text)
      && (NoneHigher(rs, after, before) ==>
            text == if changes == 0 then "accepted" else if mode == "rewrite" then "rewrite_mode_applied" else "non_regressing_rewrite_accepted")
  {
    var rs := ACCEPTANCE_REASONS;
    assert Higher(rs, 0, after, before) <==> after.parse.errors < before.parse.errors;
    assert Higher(rs, 1, after, before) <==> after.resolve.errors < before.resolve.errors;
    assert Higher(rs, 2, after, before) <==> after.check.errors < before.check.errors;
    assert Higher(rs, 3, after, before) <==> after.totalWarnings < before.totalWarnings;
  }

  // ---- The pipeline, phase by phase ----

  /** Where the pipeline stands; `taken` are the candidates accepted so far. */
  datatype State = State(source: string, stats: Stats, diags: Diagnostics, taken: seq<Candidate>, proposed: bool, rejected: string)

  function Start(source: string, probe: Probe): State {
    var (stats, diags) := probe(source);
    State(source, stats, diags, [], false, "")
  }

  function StepOf(mode: string, probe: Probe, phase: Phase, st: State): State {
    var c := phase(st.source, st.diags);
    if |c.changes| == 0 && c.skipped == 0 then st
    else
      var (stats, diags) := probe(c.source);
      if IsAccepted(mode, st.stats, stats, |c.changes|, c.skipped) then State(c.source, stats, diags, st.taken + [c], true, st.rejected)
      else st.(proposed := true, rejected := if st.rejected == "" then ExplainRejected(mode, st.stats, stats) else st.rejected)
  }

  function RunPhases(mode: string, probe: Probe, phases: seq<Phase>, source: string): State {
    if phases == [] then Start(source, probe)
    else StepOf(mode, probe, phases[|phases| - 1], RunPhases(mode, probe, phases[..|phases| - 1], source))
  }

  /**
   Phase `i` extends what was taken exactly when it proposes something and the mode is the rewrite mode
   or no count gets worse before a more important one gets better; otherwise everything stays.
   */
  lemma {:induction false} TakenIff(mode: string, probe: Probe, phases: seq<Phase>, source: string, i: nat)
    requires i < |phases|
    ensures var st, next := RunPhases(mode, probe, phases[..i], source), RunPhases(mode, probe, phases[..i + 1], source);
      var c := phases[i](st.source, st.diags);
      var proposes := c.changes != [] || c.skipped > 0;
      var takes := proposes && (mode == "rewrite" || !LexBelow(Ladder(mode, st.stats), Ladder(mode, probe(c.source).0)));
      && next.taken == (if takes then st.taken + [c] else st.taken)
      && next.source == (if takes then c.source else st.source)
      && (next.stats, next.diags) == (if takes then probe(c.source) else (st.stats, st.diags))
      && (next.proposed <==> st.proposed || proposes)
      && next.rejected == (if proposes && !takes && st.rejected == "" then ExplainRejected(mode, st.stats, probe(c.source).0) else st.rejected)
  {
    hide Compare, ExplainRejected, Ladder, LexBelow;
    RunMore(mode, probe, phases, source, i);
    var st := RunPhases(mode, probe, phases[..i], source);
    CompareIsLex(mode, st.stats, probe(phases[i](st.source, st.diags).source).0);
  }

  function AllChanges(cs: seq<Candidate>): seq<Change> {
    if cs == [] then [] else AllChanges(cs[..|cs| - 1]) + cs[|cs| - 1].changes
  }

  function AllSkipped(cs: seq<Candidate>): nat {
    if cs == [] then 0 else AllSkipped(cs[..|cs| - 1]) + cs[|cs| - 1].skipped
  }

  /** Changes are those of each candidate, one candidate after another, and skips add up. */
  lemma {:induction false} ChangesInOrder(a: seq<Candidate>, c: Candidate, b: seq<Candidate>)
    ensures AllChanges(a + [c] + b) == AllChanges(a) + c.changes + AllChanges(b)
    ensures AllSkipped(a + [c] + b) == AllSkipped(a) + c.skipped + AllSkipped(b)
  {
    if b == [] {
      assert a + [c] + b == a + [c];
      assert (a + [c])[..|a|] == a;
    } else {
      ChangesInOrder(a, c, b[..|b| - 1]);
      assert (a + [c] + b)[..|a| + |b|] == a + [c] + b[..|b| - 1];
    }
  }

  /** The sources the pipeline went through: the original, then each accepted candidate's. */
  function SourceAt(source: string, taken: seq<Candidate>, i: nat): string
    requires i <= |taken|
  {
    if i == 0 then source else taken[i - 1].source
  }

  /** The step to candidate `i` is one the mode accepts. */
  ghost predicate AcceptedAt(mode: string, probe: Probe, source: string, taken: seq<Candidate>, i: nat)
    requires i < |taken|
  {
    && IsAccepted(mode, probe(SourceAt(source, taken, i)).0, probe(taken[i].source).0, |taken[i].changes|, taken[i].skipped)
    && (|taken[i].changes| > 0 || taken[i].skipped > 0)
  }

  ghost predicate EachAccepted(mode: string, probe: Probe, source: string, taken: seq<Candidate>) {
    forall i :: 0 <= i < |taken| ==> AcceptedAt(mode, probe, source, taken, i)
  }

  /** The step to candidate `i` is strictly better than the source before it. */
  ghost predicate ImprovedAt(mode: string, probe: Probe, source: string, taken: seq<Candidate>, i: nat)
    requires i < |taken|
  {
    Compare(mode, probe(SourceAt(source, taken, i)).0, probe(taken[i].source).0) > 0
  }

  ghost predicate SomeImproved(mode: string, probe: Probe, source: string, taken: seq<Candidate>) {
    exists i :: 0 <= i < |taken| && ImprovedAt(mode, probe, source, taken, i)
  }

  /** A step does not depend on later ones. */
  lemma {:induction false} StepsStay(mode: string, probe: Probe, source: string, taken: seq<Candidate>, c: Candidate, i: nat)
    requires i < |taken|
    ensures AcceptedAt(mode, probe, source, taken + [c], i) <==> AcceptedAt(mode, probe, source, taken, i)
    ensures ImprovedAt(mode, probe, source, taken + [c], i) <==> ImprovedAt(mode, probe, source, taken, i)
  {
  }

  lemma {:induction false} EachAcceptedSnoc(mode: string, probe: Probe, source: string, taken: seq<Candidate>, c: Candidate)
    ensures EachAccepted(mode, probe, source, taken + [c]) <==>
      EachAccepted(mode, probe, source, taken) && AcceptedAt(mode, probe, source, taken + [c], |taken|)
  {
    hide AcceptedAt, ImprovedAt;
    forall i | 0 <= i < |taken|
      ensures AcceptedAt(mode, probe, source, taken + [c], i) <==> AcceptedAt(mode, probe, source, taken, i)
    {
      StepsStay(mode, probe, source, taken, c, i);
    }
  }

  lemma {:induction false} SomeImprovedSnoc(mode: string, probe: Probe, source: string, taken: seq<Candidate>, c: Candidate)
    ensures SomeImproved(mode, probe, source, taken + [c]) <==>
      SomeImproved(mode, probe, source, taken) || ImprovedAt(mode, probe, source, taken + [c], |taken|)
  {
    hide AcceptedAt, ImprovedAt;
    forall i | 0 <= i < |taken|
      ensures ImprovedAt(mode, probe, source, taken + [c], i) <==> ImprovedAt(mode, probe, source, taken, i)
    {
      StepsStay(mode, probe, source, taken, c, i);
    }
  }

  /** What holds after any phases under any probe: the last accepted source and its probe, each step accepted. */
  lemma {:induction false} PipelineInvariant(mode: string, probe: Probe, phases: seq<Phase>, source: string)
    ensures var st := RunPhases(mode, probe, phases, source); Fits(mode, probe, source, st) && |st.taken| <= |phases|
  {
    hide IsAccepted, ExplainRejected, StepOf;
    if phases != [] {
      var before := RunPhases(mode, probe, phases[..|phases| - 1], source);
      var st := RunPhases(mode, probe, phases, source);
      PipelineInvariant(mode, probe, phases[..|phases| - 1], source);
      StepKeeps(mode, probe, phases[|phases| - 1], source, before);
    }
  }

  ghost predicate Fits(mode: string, probe: Probe, source: string, st: State) {
    && (st.stats, st.diags) == probe(st.source) && st.source == SourceAt(source, st.taken, |st.taken|)
    && EachAccepted(mode, probe, source, st.taken)
    && (st.taken != [] ==> st.proposed)
  }

  lemma {:induction false} StepKeeps(mode: string, probe: Probe, phase: Phase, source: string, st: State)
    requires Fits(mode, probe, source, st)
    ensures var st' := StepOf(mode, probe, phase, st); Fits(mode, probe, source, st') && |st'.taken| <= |st.taken| + 1
  {
    hide IsAccepted, ExplainRejected, EachAccepted;
    EachAcceptedSnoc(mode, probe, source, st.taken, phase(st.source, st.diags));
  }

  /** If acceptance never makes things worse in some preorder, the outcome is no worse than the original. */
  lemma {:induction false} NeverWorse(noWorse: (Stats, Stats) -> bool, mode: string, probe: Probe, source: string, taken: seq<Candidate>)
    requires forall a :: noWorse(a, a)
    requires forall a, b, c :: noWorse(a, b) && noWorse(b, c) ==> noWorse(a, c)
    requires forall a, b, changes: nat, skipped: nat :: (changes > 0 || skipped > 0) && IsAccepted(mode, a, b, changes, skipped) ==> noWorse(a, b)
    requires EachAccepted(mode, probe, source, taken)
    ensures noWorse(probe(source).0, probe(SourceAt(source, taken, |taken|)).0)
  {
    if taken != [] {
      hide IsAccepted, EachAccepted;
      var n := |taken| - 1;
      var front := taken[..n];
      assert taken == front + [taken[n]];
      EachAcceptedSnoc(mode, probe, source, front, taken[n]);
      NeverWorse(noWorse, mode, probe, source, front);
      assert SourceAt(source, front, n) == SourceAt(source, taken, n);
    }
  }

  /** Outside the rewrite mode the outcome is never worse, and better exactly when some step was. */
  lemma {:induction false} ImprovedIff(mode: string, probe: Probe, source: string, taken: seq<Candidate>)
    requires mode != REWRITE && EachAccepted(mode, probe, source, taken)
    ensures var overall := Compare(mode, probe(source).0, probe(SourceAt(source, taken, |taken|)).0);
      overall >= 0 && (overall > 0 <==> SomeImproved(mode, probe, source, taken))
  {
    if taken == [] {
      CompareChains(mode, probe(source).0, probe(source).0, probe(source).0);
    } else {
      hide Compare, REWRITE, IsAccepted, SomeImproved, EachAccepted;
      var n := |taken| - 1;
      var front, c := taken[..n], taken[n];
      assert taken == front + [c];
      EachAcceptedSnoc(mode, probe, source, front, c);
      SomeImprovedSnoc(mode, probe, source, front, c);
      ImprovedIff(mode, probe, source, front);
      assert SourceAt(source, front, n) == SourceAt(source, taken, n);
      var last := probe(SourceAt(source, taken, n)).0;
      AcceptedNotWorse(mode, last, probe(c.source).0, |c.changes|, c.skipped);
      CompareChains(mode, probe(source).0, last, probe(c.source).0);
    }
  }

  // ---- The run ----

  datatype Result = Result(
    mode: string, original: string, repaired: string, changes: seq<Change>, skipped: nat,
    changed: bool, improved: bool, accepted: bool, acceptedReason: string, rejectedReason: string,
    passesUsed: nat, diagnosticsBefore: Diagnostics, diagnosticsAfter: Diagnostics, before: Stats, after: Stats)

  /** The result as the pipeline's final state determines it. */
  ghost predicate Reported(r: Result, mode: string, original: string, probe: Probe, st: State) {
    && r.mode == mode && r.original == original && r.repaired == st.source
    && (r.before, r.diagnosticsBefore) == probe(original) && (r.after, r.diagnosticsAfter) == (st.stats, st.diags)
    && r.changes == AllChanges(st.taken) && r.skipped == AllSkipped(st.taken) && r.passesUsed == |st.taken|
    && (r.changed <==> original != st.source)
    && (r.improved <==> IsImproved(mode, r.before, r.after, |r.changes|))
    && (r.accepted <==> st.proposed ==> st.taken != [])
    && r.acceptedReason == (if r.accepted then ExplainAccepted(mode, r.before, r.after, |r.changes|, st.proposed) else "")
    && r.rejectedReason == (if !r.accepted && st.rejected == "" then "no_improving_candidate" else st.rejected)
  }

  lemma {:induction false} Untaken(mode: string, probe: Probe, source: string)
    ensures RunPhases(mode, probe, [], source) == Start(source, probe) && AllChanges([]) == [] && AllSkipped([]) == 0
  {
  }

  lemma {:induction false} TakenMore(taken: seq<Candidate>, c: Candidate)
    ensures AllChanges(taken + [c]) == AllChanges(taken) + c.changes && AllSkipped(taken + [c]) == AllSkipped(taken) + c.skipped
  {
  }

  lemma {:induction false} RunMore(mode: string, probe: Probe, phases: seq<Phase>, source: string, i: nat)
    requires i < |phases|
    ensures RunPhases(mode, probe, phases[..i + 1], source) == StepOf(mode, probe, phases[i], RunPhases(mode, probe, phases[..i], source))
  {
    assert phases[..i + 1][..i] == phases[..i];
  }

  method Analyze(mode0: string, source: string, maxPasses0: int, phases0: seq<Phase>, probe: Probe) returns (r: Result)
    ensures var mode := if mode0 == "" then AUTO else mode0;
      var n := if 0 < maxPasses0 < |phases0| then maxPasses0 else |phases0|;
      Reported(r, mode, source, probe, RunPhases(mode, probe, phases0[..n], source))
  {
    hide IsAccepted, IsImproved, ExplainRejected, ExplainAccepted, RunPhases, AllChanges, AllSkipped;
    var mode := mode0;
    if mode == "" {
      mode := AUTO;
    }
    Untaken(mode, probe, source);
    var (beforeStats, beforeDiags) := probe(source);
    var current, currentStats, currentDiags := source, beforeStats, beforeDiags;
    var changes: seq<Change>, skipped: nat := [], 0;
    var proposed, passesUsed, rejected := false, 0, "";
    var maxPasses, phases := maxPasses0, phases0;
    if maxPasses <= 0 || maxPasses > |phases| {
      maxPasses := |phases|;
    }
    if maxPasses < |phases| {
      phases := phases[..maxPasses];
    }
    assert phases == phases0[..if 0 < maxPasses0 < |phases0| then maxPasses0 else |phases0|];
    ghost var taken: seq<Candidate> := [];
    for i := 0 to |phases|
      invariant State(current, currentStats, currentDiags, taken, proposed, rejected) == RunPhases(mode, probe, phases[..i], source)
      invariant changes == AllChanges(taken) && skipped == AllSkipped(taken) && passesUsed == |taken|
    {
      RunMore(mode, probe, phases, source, i);
      var candidate := phases[i](current, currentDiags);
      if |candidate.changes| == 0 && candidate.skipped == 0 {
        continue;
      }
      proposed := true;
      var (nextStats, nextDiags) := probe(candidate.source);
      if !IsAccepted(mode, currentStats, nextStats, |candidate.changes|, candidate.skipped) {
        if rejected == "" {
          rejected := ExplainRejected(mode, currentStats, nextStats);
        }
        continue;
      }
      current, currentStats, currentDiags := candidate.source, nextStats, nextDiags;
      changes := changes + candidate.changes;
      skipped := skipped + candidate.skipped;
      TakenMore(taken, candidate);
      taken := taken + [candidate];
      passesUsed := passesUsed + 1;
    }
    assert phases[..|phases|] == phases;
    var improved := IsImproved(mode, beforeStats, currentStats, |changes|);
    var accepted := !proposed || passesUsed > 0;
    var acceptedReason := "";
    if accepted {
      acceptedReason := ExplainAccepted(mode, beforeStats, currentStats, |changes|, proposed);
    } else if rejected == "" {
      rejected := "no_improving_candidate";
    }
    return Result(mode, source, current, changes, skipped, source != current, improved, accepted, acceptedReason,
                  rejected, passesUsed, beforeDiags, currentDiags, beforeStats, currentStats);
  }

  /** What a caller can rely on, whatever the phases propose and whatever the probe says. */
  lemma {:induction false} ResultLaws(r: Result, mode: string, source: string, probe: Probe, phases: seq<Phase>)
    requires Reported(r, mode, source, probe, RunPhases(mode, probe, phases, source))
    ensures (r.after, r.diagnosticsAfter) == probe(r.repaired) && r.passesUsed <= |phases|
    ensures !r.accepted ==> r.repaired == source && !r.changed && r.changes == [] && r.after == r.before && r.rejectedReason != ""
    ensures mode == REWRITE ==> (r.improved <==> r.changes != [])
    ensures mode != REWRITE ==> Compare(mode, r.before, r.after) >= 0
    ensures mode != REWRITE ==> (r.improved <==> SomeImproved(mode, probe, source, RunPhases(mode, probe, phases, source).taken))
  {
    hide Compare, REWRITE, RunPhases, ExplainAccepted, IsAccepted, EachAccepted;
    PipelineInvariant(mode, probe, phases, source);
    if mode != REWRITE {
      ImprovedIff(mode, probe, source, RunPhases(mode, probe, phases, source).taken);
    }
  }
}
