/**
 The keep-the-best session: each experiment mutates the tree, is benchmarked, and is committed if its
 score is strictly below the session's best, else reverted.  Git commands may fail at any point.
 */
module Autoresearch {

  import opened Wrappers

  type Files = map<string, string>

  /** A failed command may leave any index and work tree behind; it does not move HEAD. */
  datatype Outcome = Done | Fails(index: Files, work: Files)

  /** No score stands for NaN. */
  datatype Bench = BenchFails | Scores(score: Option<real>)

  /**
   What one experiment runs into: the tree and index after the mutator and the benchmark, and how each
   git command fares (the first two are the reset and clean of a revert, the others of a commit).
   */
  datatype Experiment = Experiment(
    work: Files, index: Files, mutatorOk: bool, bench: Bench,
    reset: Outcome, clean: Outcome, add: Outcome, commit: Outcome)

  datatype Verdict = Kept | Reverted | MutatorFailed | Errored

  /** How an experiment ended: its score, the tree it was measured on, and HEAD afterwards. */
  datatype Entry = Entry(verdict: Verdict, score: Option<real>, tree: Files, head: Files)

  // ---- The session's laws, on its log ----

  predicate Decided(e: Entry) {
    e.verdict == Kept || e.verdict == Reverted
  }

  predicate Counts(e: Entry) {
    Decided(e) && e.score.Some?
  }

  /** Strictly below every score decided on before. */
  ghost predicate RecordLow(log: seq<Entry>, i: nat)
    requires i < |log|
  {
    && log[i].score.Some?
    && (forall j :: 0 <= j < i && Counts(log[j]) ==> log[i].score.value < log[j].score.value)
  }

  /** Of the experiments decided on, exactly the record lows are kept. */
  ghost predicate KeepsRecordLows(log: seq<Entry>) {
    forall i :: 0 <= i < |log| && Decided(log[i]) ==> (log[i].verdict == Kept <==> RecordLow(log, i))
  }

  ghost predicate LastKept(log: seq<Entry>, k: nat) {
    k < |log| && log[k].verdict == Kept && forall i :: k < i < |log| ==> log[i].verdict != Kept
  }

  /** HEAD is the tree of the last kept experiment, or the starting point. */
  ghost predicate HeadFollows(start: Files, log: seq<Entry>) {
    forall i :: 0 <= i < |log| ==> HeadFollowsAt(start, log, i)
  }

  ghost predicate HeadFollowsAt(start: Files, log: seq<Entry>, i: nat)
    requires i < |log|
  {
    log[i].head == if log[i].verdict == Kept then log[i].tree else HeadBefore(start, log, i)
  }

  ghost function HeadBefore(start: Files, log: seq<Entry>, i: nat): Files
    requires i <= |log|
  {
    if i == 0 then start else log[i - 1].head
  }

  ghost function Tally(log: seq<Entry>, v: Verdict): nat {
    if log == [] then 0 else Tally(log[..|log| - 1], v) + if log[|log| - 1].verdict == v then 1 else 0
  }

  /** Kept scores strictly decrease. */
  lemma {:induction false} KeptDecrease(log: seq<Entry>, i: nat, j: nat)
    requires KeepsRecordLows(log) && i < j < |log| && log[i].verdict == Kept && log[j].verdict == Kept
    ensures log[i].score.Some? && log[j].score.Some? && log[j].score.value < log[i].score.value
  {
  }

  /** Some decided score is attained first at a kept entry no later. */
  lemma {:induction false} KeptBelow(log: seq<Entry>, i: nat) returns (k: nat)
    requires KeepsRecordLows(log) && i < |log| && Counts(log[i])
    ensures k <= i && log[k].verdict == Kept && log[k].score.Some? && log[k].score.value <= log[i].score.value
  {
    if log[i].verdict == Kept {
      k := i;
    } else {
      assert !RecordLow(log, i);
      var j :| 0 <= j < i && Counts(log[j]) && log[j].score.value <= log[i].score.value;
      k := KeptBelow(log, j);
    }
  }

  /** The last kept experiment is the minimum of all that were decided on, and the first to reach it. */
  lemma {:induction false} ChampionIsMin(log: seq<Entry>, k: nat, i: nat)
    requires KeepsRecordLows(log) && LastKept(log, k) && i < |log| && Counts(log[i])
    ensures log[k].score.Some? && log[k].score.value <= log[i].score.value
    ensures i < k ==> log[k].score.value < log[i].score.value
  {
    assert Decided(log[k]) && RecordLow(log, k);
    var b := KeptBelow(log, i);
    if b < k {
      KeptDecrease(log, b, k);
    }
  }

  /** Every experiment ends in exactly one way. */
  lemma {:induction false} TalliesAddUp(log: seq<Entry>)
    ensures |log| == Tally(log, Kept) + Tally(log, Reverted) + Tally(log, MutatorFailed) + Tally(log, Errored)
  {
    if log != [] {
      TalliesAddUp(log[..|log| - 1]);
    }
  }

  /** HEAD moves only on a keep: between two keeps it stays at what the first one measured. */
  lemma {:induction false} HeadStays(start: Files, log: seq<Entry>, k: nat, i: nat)
    requires HeadFollows(start, log) && k <= i < |log| && log[k].verdict == Kept
    requires forall j :: k < j <= i ==> log[j].verdict != Kept
    ensures log[i].head == log[k].tree
  {
    assert HeadFollowsAt(start, log, i);
    if k < i {
      HeadStays(start, log, k, i - 1);
    }
  }

  lemma {:induction false} HeadUnmoved(start: Files, log: seq<Entry>, i: nat)
    requires HeadFollows(start, log) && i < |log|
    requires forall j :: 0 <= j <= i ==> log[j].verdict != Kept
    ensures log[i].head == start
  {
    assert HeadFollowsAt(start, log, i);
    if i > 0 {
      HeadUnmoved(start, log, i - 1);
    }
  }

  // ---- The best of a history ----

  /** The first entry that reaches the minimum. */
  ghost predicate FirstMin(scores: seq<Option<real>>, k: nat) {
    && k < |scores| && scores[k].Some?
    && (forall i :: 0 <= i < |scores| && scores[i].Some? ==> scores[k].value <= scores[i].value)
    && (forall i :: 0 <= i < k && scores[i].Some? ==> scores[k].value < scores[i].value)
  }

  method BestRun(scores: seq<Option<real>>) returns (best: nat, found: bool)
    ensures found <==> exists i :: 0 <= i < |scores| && scores[i].Some?
    ensures found ==> FirstMin(scores, best)
  {
    best, found := 0, false;
    for i := 0 to |scores|
      invariant found <==> exists j :: 0 <= j < i && scores[j].Some?
      invariant found ==> best < i && FirstMin(scores[..i], best)
    {
      assert scores[..i + 1] == scores[..i] + [scores[i]];
      if scores[i].None? {
        continue;
      }
      if !found || scores[i].value < scores[best].value {
        best, found := i, true;
      }
    }
    assert scores[..|scores|] == scores;
  }

  /** The scores that were decided on. */
  ghost function DecidedScores(log: seq<Entry>): (s: seq<Option<real>>)
    ensures |s| == |log|
    ensures forall i :: 0 <= i < |log| ==> s[i] == if Decided(log[i]) then log[i].score else None
  {
    seq(|log|, i requires 0 <= i < |log| => if Decided(log[i]) then log[i].score else None)
  }

  /** The session's champion is what the history search would pick. */
  lemma {:induction false} ChampionIsBestRun(log: seq<Entry>, k: nat)
    requires KeepsRecordLows(log) && LastKept(log, k)
    ensures FirstMin(DecidedScores(log), k)
  {
    var s := DecidedScores(log);
    assert Decided(log[k]) && RecordLow(log, k);
    forall i | 0 <= i < |s| && s[i].Some?
      ensures s[k].value <= s[i].value && (i < k ==> s[k].value < s[i].value)
    {
      ChampionIsMin(log, k, i);
    }
  }

  // ---- Git ----

  /** Tracked files go back to HEAD; files git does not track stay. */
  function ResetWork(head: Files, index: Files, work: Files): Files {
    map p | p in head.Keys + (work.Keys - index.Keys) :: if p in head then head[p] else work[p]
  }

  /** Files git does not track go. */
  function CleanWork(index: Files, work: Files): Files {
    map p | p in work && p in index :: work[p]
  }

  /** It takes both to get back to HEAD. */
  lemma {:induction false} ResetThenClean(head: Files, index: Files, work: Files)
    ensures CleanWork(head, ResetWork(head, index, work)) == head
  {
  }

  /** Resetting alone gets there exactly if nothing untracked lies about. */
  lemma {:induction false} ResetSufficesIff(head: Files, index: Files, work: Files)
    ensures ResetWork(head, index, work) == head <==> forall p :: p in work && p !in index ==> p in head
    ensures forall p :: p in work && p !in index && p !in head ==> p in ResetWork(head, index, work) && ResetWork(head, index, work)[p] == work[p]
  {
    if ResetWork(head, index, work) == head {
      forall p | p in work && p !in index
        ensures p in head
      {
        assert p in ResetWork(head, index, work);
      }
    }
  }

  function DecideKeep(score: Option<real>, best: Option<real>): bool {
    score.Some? && (best.None? || score.value < best.value)
  }

  // ---- Every run is lawful ----

  /** How an experiment ends, given the best score so far. */
  function VerdictOf(x: Experiment, best: Option<real>): Verdict {
    if !x.mutatorOk then MutatorFailed
    else if x.bench.BenchFails? then Errored
    else if DecideKeep(x.bench.score, best) then if x.add.Done? && x.commit.Done? then Kept else Errored
    else if x.reset.Done? && x.clean.Done? then Reverted else Errored
  }

  /** No git command that the experiment comes to fails. */
  predicate GitOk(x: Experiment, best: Option<real>) {
    if x.mutatorOk && x.bench.Scores? && DecideKeep(x.bench.score, best) then x.add.Done? && x.commit.Done?
    else x.reset.Done? && x.clean.Done?
  }

  function ScoreOf(x: Experiment): Option<real> {
    if x.mutatorOk && x.bench.Scores? then x.bench.score else None
  }

  function EntryOf(x: Experiment, best: Option<real>, head: Files): Entry {
    var v := VerdictOf(x, best);
    Entry(v, ScoreOf(x), x.work, if v == Kept then x.work else head)
  }

  /** The log of a session that ran these experiments. */
  ghost function RunLog(start: Files, xs: seq<Experiment>): (log: seq<Entry>)
    ensures |log| == |xs|
  {
    if xs == [] then []
    else
      var log := RunLog(start, xs[..|xs| - 1]);
      log + [EntryOf(xs[|xs| - 1], BestAfter(log), HeadBefore(start, log, |log|))]
  }

  /** The score of the last kept experiment. */
  ghost function BestAfter(log: seq<Entry>): Option<real> {
    if log == [] then None
    else if log[|log| - 1].verdict == Kept then log[|log| - 1].score
    else BestAfter(log[..|log| - 1])
  }

  /** The best score is below or at every score decided on, and there is none before the first of those. */
  ghost predicate BestBounds(log: seq<Entry>) {
    forall i :: 0 <= i < |log| && Counts(log[i]) ==> BestAfter(log).Some? && BestAfter(log).value <= log[i].score.value
  }

  ghost predicate BestAttained(log: seq<Entry>) {
    BestAfter(log).Some? ==> exists k: nat :: LastKept(log, k) && log[k].score == BestAfter(log)
  }

  lemma {:induction false} KeepIsRecordLow(log: seq<Entry>, e: Entry)
    requires BestBounds(log) && BestAttained(log) && Decided(e) && (e.verdict == Kept <==> DecideKeep(e.score, BestAfter(log)))
    ensures e.verdict == Kept <==> RecordLow(log + [e], |log|)
  {
    if BestAfter(log).Some? && e.score.Some? {
      var k: nat :| LastKept(log, k) && log[k].score == BestAfter(log);
      assert (log + [e])[k] == log[k] && Counts(log[k]);
    }
  }

  lemma {:induction false} RecordLowsExtend(log: seq<Entry>, e: Entry)
    requires KeepsRecordLows(log) && (Decided(e) ==> (e.verdict == Kept <==> RecordLow(log + [e], |log|)))
    ensures KeepsRecordLows(log + [e])
  {
    var log' := log + [e];
    forall i | 0 <= i < |log'| && Decided(log'[i])
      ensures log'[i].verdict == Kept <==> RecordLow(log', i)
    {
      if i < |log| {
        assert forall j :: 0 <= j <= i ==> log'[j] == log[j];
        assert Decided(log[i]) && (RecordLow(log', i) <==> RecordLow(log, i));
      }
    }
  }

  lemma {:induction false} BestExtends(log: seq<Entry>, e: Entry)
    requires BestBounds(log) && BestAttained(log)
    requires e.verdict == Kept ==> DecideKeep(e.score, BestAfter(log))
    requires e.verdict == Reverted ==> !DecideKeep(e.score, BestAfter(log))
    ensures BestBounds(log + [e]) && BestAttained(log + [e])
  {
  }

  /** Every run keeps exactly its record lows, with the best score and HEAD following the keeps. */
  lemma {:induction false} RunLawful(start: Files, xs: seq<Experiment>)
    ensures var log := RunLog(start, xs);
      KeepsRecordLows(log) && BestBounds(log) && BestAttained(log) && HeadFollows(start, log)
  {
    if xs != [] {
      var log, log' := RunLog(start, xs[..|xs| - 1]), RunLog(start, xs);
      var e := log'[|log|];
      RunLawful(start, xs[..|xs| - 1]);
      BestExtends(log, e);
      if Decided(e) {
        KeepIsRecordLow(log, e);
      }
      RecordLowsExtend(log, e);
      HeadExtends(start, log, e);
    }
  }

  lemma {:induction false} HeadExtends(start: Files, log: seq<Entry>, e: Entry)
    requires HeadFollows(start, log) && e.head == if e.verdict == Kept then e.tree else HeadBefore(start, log, |log|)
    ensures HeadFollows(start, log + [e])
  {
    forall i: nat | i <= |log| ensures HeadFollowsAt(start, log + [e], i) {
      assert i < |log| ==> HeadFollowsAt(start, log, i);
    }
  }

  /** An experiment's score is strictly below every score decided on before. */
  ghost predicate Improves(log: seq<Entry>, i: nat, x: Experiment)
    requires i <= |log|
  {
    && x.bench.Scores? && x.bench.score.Some?
    && forall j :: 0 <= j < i && log[j].verdict in {Kept, Reverted} && log[j].score.Some? ==> x.bench.score.value < log[j].score.value
  }

  lemma {:induction false} RunPrefix(start: Files, xs: seq<Experiment>, i: nat)
    requires i <= |xs|
    ensures RunLog(start, xs[..i]) == RunLog(start, xs)[..i]
  {
    if i < |xs| {
      RunPrefix(start, xs[..|xs| - 1], i);
      assert xs[..|xs| - 1][..i] == xs[..i];
    } else {
      assert xs[..i] == xs && RunLog(start, xs)[..i] == RunLog(start, xs);
    }
  }

  lemma {:induction false} ImprovesIff(log: seq<Entry>, x: Experiment)
    requires BestBounds(log) && BestAttained(log)
    ensures Improves(log, |log|, x) <==> x.bench.Scores? && DecideKeep(x.bench.score, BestAfter(log))
  {
    if BestAfter(log).Some? {
      var k: nat :| LastKept(log, k) && log[k].score == BestAfter(log);
    }
    assert forall j :: 0 <= j < |log| && Counts(log[j]) ==> BestAfter(log).Some? && BestAfter(log).value <= log[j].score.value;
    assert forall j :: 0 <= j < |log| && log[j].verdict in {Kept, Reverted} && log[j].score.Some? ==> Counts(log[j]);
  }

  /** An entry is what its experiment comes to after the ones before it. */
  lemma {:induction false} EntryAt(start: Files, xs: seq<Experiment>, i: nat)
    requires i < |xs|
    ensures var log, before := RunLog(start, xs), RunLog(start, xs[..i]);
      before == log[..i] && log[i] == EntryOf(xs[i], BestAfter(before), HeadBefore(start, before, i))
  {
    hide EntryOf, BestAfter, HeadBefore;
    RunPrefix(start, xs, i);
    RunPrefix(start, xs, i + 1);
    assert xs[..i + 1][..i] == xs[..i];
    assert RunLog(start, xs[..i + 1])[i] == RunLog(start, xs)[i];
  }

  lemma {:induction false} ImprovesPrefix(log: seq<Entry>, i: nat, x: Experiment)
    requires i <= |log|
    ensures Improves(log[..i], i, x) <==> Improves(log, i, x)
  {
    var before := log[..i];
    assert forall j :: 0 <= j < i ==> before[j] == log[j];
  }

  /** How each experiment of a run ends, and with which git commands. */
  lemma {:induction false} VerdictsTell(start: Files, xs: seq<Experiment>, i: nat)
    requires i < |xs|
    ensures var log, x := RunLog(start, xs), xs[i];
      var ran, better := x.mutatorOk && x.bench.Scores?, Improves(log, i, x);
      && (log[i].verdict == MutatorFailed <==> !x.mutatorOk)
      && (log[i].verdict == Kept <==> ran && better && x.add.Done? && x.commit.Done?)
      && (log[i].verdict == Reverted <==> ran && !better && x.reset.Done? && x.clean.Done?)
      && (log[i].verdict in {Kept, Reverted} ==> log[i].score == x.bench.score && log[i].tree == x.work)
  {
    hide BestBounds, BestAttained, KeepsRecordLows, HeadFollows, Improves, RunLog, BestAfter, HeadBefore, DecideKeep;
    RunLawful(start, xs[..i]);
    EntryAt(start, xs, i);
    ImprovesIff(RunLog(start, xs[..i]), xs[i]);
    ImprovesPrefix(RunLog(start, xs), i, xs[i]);
  }

  /** At the end of every run HEAD is the tree the best score was measured on. */
  lemma {:induction false} HeadIsChampion(start: Files, xs: seq<Experiment>)
    ensures var log := RunLog(start, xs); var head := HeadBefore(start, log, |log|);
      if BestAfter(log).Some? then exists k: nat :: LastKept(log, k) && log[k].score == BestAfter(log) && log[k].tree == head
      else head == start
  {
    var log := RunLog(start, xs);
    RunLawful(start, xs);
    hide RunLog, BestAfter, KeepsRecordLows, BestBounds, HeadFollows, HeadBefore;
    if BestAfter(log).Some? {
      var k: nat :| LastKept(log, k) && log[k].score == BestAfter(log);
      HeadAtLastKept(start, log, k);
    } else {
      NothingKept(log);
      HeadUntouched(start, log);
    }
  }

  lemma {:induction false} HeadAtLastKept(start: Files, log: seq<Entry>, k: nat)
    requires HeadFollows(start, log) && LastKept(log, k)
    ensures k < |log| && HeadBefore(start, log, |log|) == log[k].tree
  {
    hide HeadFollows;
    HeadStays(start, log, k, |log| - 1);
  }

  lemma {:induction false} HeadUntouched(start: Files, log: seq<Entry>)
    requires HeadFollows(start, log) && forall i :: 0 <= i < |log| ==> log[i].verdict != Kept
    ensures HeadBefore(start, log, |log|) == start
  {
    hide HeadFollows;
    if log != [] {
      HeadUnmoved(start, log, |log| - 1);
    }
  }

  lemma {:induction false} NothingKept(log: seq<Entry>)
    requires KeepsRecordLows(log) && BestBounds(log) && BestAfter(log).None?
    ensures forall i :: 0 <= i < |log| ==> log[i].verdict != Kept
  {
  }

  // ---- The session ----

  class Session {
    var attempted: nat
    var kept: nat
    var reverted: nat
    var mutatorFail: nat
    var errors: nat
    var best: Option<real>
    var head: Files
    var index: Files
    var work: Files
    ghost const start: Files
    ghost var script: seq<Experiment>

    ghost function Log(): seq<Entry>
      reads this
    {
      RunLog(start, script)
    }

    /** The session is where its experiments have led, with so many errors not yet counted. */
    ghost predicate Fits(pending: nat)
      reads this
    {
      && attempted == |script| && kept == Tally(Log(), Kept) && reverted == Tally(Log(), Reverted)
      && mutatorFail == Tally(Log(), MutatorFailed) && errors + pending == Tally(Log(), Errored)
      && best == BestAfter(Log()) && head == HeadBefore(start, Log(), |Log()|)
    }

    ghost predicate Valid()
      reads this
    {
      Fits(0)
    }

    /** The tree is what HEAD says, with nothing staged and nothing untracked. */
    predicate Clean()
      reads this
    {
      index == head && work == head
    }

    constructor (head: Files)
      ensures Valid() && Clean() && script == [] && start == head
    {
      attempted, kept, reverted, mutatorFail, errors := 0, 0, 0, 0, 0;
      best, this.head, index, work := None, head, head, head;
      start, script := head, [];
    }

    method Reset(o: Outcome) returns (ok: bool)
      modifies this`index, this`work
      ensures ok == o.Done?
      ensures ok ==> index == head && work == ResetWork(head, old(index), old(work))
    {
      if o.Fails? {
        index, work := o.index, o.work;
        return false;
      }
      work := ResetWork(head, index, work);
      index := head;
      return true;
    }

    method RemoveUntracked(o: Outcome) returns (ok: bool)
      modifies this`index, this`work
      ensures ok == o.Done?
      ensures ok ==> index == old(index) && work == CleanWork(index, old(work))
    {
      if o.Fails? {
        index, work := o.index, o.work;
        return false;
      }
      work := CleanWork(index, work);
      return true;
    }

    /** Stages everything and commits it; the commit may be empty. */
    method CommitKept(x: Experiment) returns (ok: bool)
      modifies this`index, this`work, this`head
      ensures ok == (x.add.Done? && x.commit.Done?)
      ensures if ok then head == old(work) && Clean() else head == old(head)
    {
      if x.add.Fails? {
        index, work := x.add.index, x.add.work;
        return false;
      }
      index := work;
      if x.commit.Fails? {
        index, work := x.commit.index, x.commit.work;
        return false;
      }
      head := index;
      return true;
    }

    /** After a failed mutator or benchmark both commands are tried and their failures ignored. */
    method RevertQuietly(x: Experiment)
      modifies this`index, this`work
      ensures x.reset.Done? && x.clean.Done? ==> Clean()
    {
      ResetThenClean(head, index, work);
      var _ := Reset(x.reset);
      var _ := RemoveUntracked(x.clean);
    }

    /** Keeps a score below the best and reverts any other; not done when git fails. */
    method Judge(x: Experiment, score: Option<real>) returns (done: bool)
      modifies this`kept, this`reverted, this`best, this`head, this`index, this`work
      ensures var keep := DecideKeep(score, old(best));
        && done == (if keep then x.add.Done? && x.commit.Done? else x.reset.Done? && x.clean.Done?)
        && kept == old(kept) + (if done && keep then 1 else 0)
        && reverted == old(reverted) + (if done && !keep then 1 else 0)
        && best == (if done && keep then score else old(best))
        && head == (if done && keep then old(work) else old(head))
      ensures done ==> Clean()
    {
      if DecideKeep(score, best) {
        done := CommitKept(x);
        if done {
          kept := kept + 1;
          best := score;
        }
      } else {
        ResetThenClean(head, index, work);
        done := Reset(x.reset);
        if !done {
          return;
        }
        done := RemoveUntracked(x.clean);
        if done {
          reverted := reverted + 1;
        }
      }
    }

    /** One experiment; not ok when the benchmark fails, or git fails to keep or revert. */
    method RunIter(x: Experiment) returns (ok: bool)
      requires Valid()
      modifies this
      ensures script == old(script) + [x] && Fits(if ok then 0 else 1)
      ensures GitOk(x, old(best)) ==> Clean()
    {
      hide RunLog, Tally, BestAfter, HeadBefore, ResetWork, CleanWork;
      LogSnoc(start, script, x);
      attempted := attempted + 1;
      script := script + [x];
      work, index := x.work, x.index;
      if !x.mutatorOk {
        mutatorFail := mutatorFail + 1;
        RevertQuietly(x);
        return true;
      }
      if x.bench.BenchFails? {
        RevertQuietly(x);
        return false;
      }
      var score := x.bench.score;
      ok := Judge(x, score);
    }

    /** Experiments up to the limit or the interrupt; failed ones are counted and the session goes on. */
    method Run(xs: seq<Experiment>, limit: nat, interrupt: nat) returns (interrupted: bool)
      requires Valid() && script == [] && |xs| >= limit
      modifies this
      ensures Valid() && |script| <= limit && script == xs[..|script|]
      ensures interrupted == (interrupt < limit) && |script| == if interrupted then interrupt else limit
      ensures attempted == kept + reverted + mutatorFail + errors
    {
      hide RunLog, Tally, BestAfter, HeadBefore;
      interrupted := false;
      var i := 0;
      while i < limit && !interrupted
        invariant 0 <= i <= limit && i <= interrupt && Valid() && script == xs[..i]
        invariant interrupted ==> i == interrupt < limit
        decreases limit - i, !interrupted
      {
        if i == interrupt {
          interrupted := true;
        } else {
          var ok := RunIter(xs[i]);
          if !ok {
            errors := errors + 1;
          }
          i := i + 1;
        }
      }
      TalliesAddUp(Log());
    }
  }

  lemma {:induction false} LogSnoc(start: Files, xs: seq<Experiment>, x: Experiment)
    ensures var log, log' := RunLog(start, xs), RunLog(start, xs + [x]);
      var e := EntryOf(x, BestAfter(log), HeadBefore(start, log, |log|));
      && log' == log + [e] && BestAfter(log') == (if e.verdict == Kept then e.score else BestAfter(log))
      && HeadBefore(start, log', |log'|) == e.head
      && (forall v :: Tally(log', v) == Tally(log, v) + if e.verdict == v then 1 else 0)
  {
    assert (xs + [x])[..|xs|] == xs;
    var log, log' := RunLog(start, xs), RunLog(start, xs + [x]);
    assert log'[..|log|] == log;
  }
}
