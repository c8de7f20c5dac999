/**
 Ranking what repair left over: captured cases are grouped by habit and error code, each group is
 summed up with a representative case, and the groups are ranked.
 */
module Learning {

  import opened StableSort
  import opened Text
  import opened Wrappers

  /** `habit` and `code` are the case's primary habit and residual error code. */
  datatype Case = Case(
    name: string, habit: string, code: string,
    parseErrors: int, resolveErrors: int, checkErrors: int,
    residual: int, reduced: int, status: string, input: string, expected: string)

  datatype Fixture = Fixture(name: string, input: string, expected: string)

  datatype Priority = Priority(
    key: string, stage: string, habit: string, code: string,
    cases: int, residual: int, reduced: int, covered: bool, uncovered: int,
    representative: string, status: string, corpusCase: string, action: string, score: int)

  // ---- A case by itself ----

  function Key(c: Case): string {
    c.habit + " -> " + c.code
  }

  predicate MoreErrors(a: (string, int), b: (string, int)) {
    a.1 > b.1
  }

  /** The stage with most residual errors; `mixed` when there are none or two stages tie at the top. */
  function DominantStage(c: Case): string {
    var stages := Sort(MoreErrors, [("parser", c.parseErrors), ("resolve", c.resolveErrors), ("check", c.checkErrors)]);
    if stages[0].1 == 0 then "mixed"
    else if stages[0].1 == stages[1].1 && stages[1].1 > 0 then "mixed"
    else stages[0].0
  }

  /** A stage is named exactly when it has strictly the most errors. */
  lemma {:induction false} DominantStageIff(c: Case)
    requires c.parseErrors >= 0 && c.resolveErrors >= 0 && c.checkErrors >= 0
    ensures DominantStage(c) == "parser" <==> c.parseErrors > c.resolveErrors && c.parseErrors > c.checkErrors
    ensures DominantStage(c) == "resolve" <==> c.resolveErrors > c.parseErrors && c.resolveErrors > c.checkErrors
    ensures DominantStage(c) == "check" <==> c.checkErrors > c.parseErrors && c.checkErrors > c.resolveErrors
    ensures DominantStage(c) in ["parser", "resolve", "check", "mixed"]
  {
    hide Sort;
    SortThree(("parser", c.parseErrors), ("resolve", c.resolveErrors), ("check", c.checkErrors));
    assert "parser"[0] == 'p' && "resolve"[0] == 'r' && "check"[0] == 'c' && "mixed"[0] == 'm';
  }

  /** Three entries sorted, largest first, equal ones in their order. */
  lemma {:induction false} SortThree(p: (string, int), r: (string, int), k: (string, int))
    ensures Sort(MoreErrors, [p, r, k]) ==
      if r.1 > p.1 then if k.1 <= p.1 then [r, p, k] else if k.1 <= r.1 then [r, k, p] else [k, r, p]
      else if k.1 <= r.1 then [p, r, k] else if k.1 <= p.1 then [p, k, r] else [k, p, r]
  {
    var two := if r.1 > p.1 then [r, p] else [p, r];
    assert [p, r, k][..2] == [p, r] && [p, r][..1] == [p];
    assert Sort(MoreErrors, [p, r]) == two by {
      assert Sort(MoreErrors, [p]) == [p];
      InsertOne(p, r);
    }
    assert Sort(MoreErrors, [p, r, k]) == Insert(MoreErrors, two, k);
    InsertTwo(two[0], two[1], k);
  }

  lemma {:induction false} InsertOne(a: (string, int), x: (string, int))
    ensures Insert(MoreErrors, [a], x) == if x.1 > a.1 then [x, a] else [a, x]
  {
  }

  lemma {:induction false} InsertTwo(a: (string, int), b: (string, int), x: (string, int))
    ensures Insert(MoreErrors, [a, b], x) == if x.1 <= b.1 then [a, b, x] else if x.1 <= a.1 then [a, x, b] else [x, a, b]
  {
    assert [a, b][..1] == [a];
    InsertOne(a, x);
  }

  /** The first fixture with the same input and expected output. */
  function CorpusMatch(c: Case, corpus: seq<Fixture>): Option<string> {
    if corpus == [] then None
    else if c.input == corpus[0].input && c.expected == corpus[0].expected then Some(corpus[0].name)
    else CorpusMatch(c, corpus[1..])
  }

  function MatchName(c: Case, corpus: seq<Fixture>): string {
    match CorpusMatch(c, corpus)
    case Some(name) => name
    case None => ""
  }

  method FindCorpusMatch(c: Case, corpus: seq<Fixture>) returns (name: string, covered: bool)
    ensures covered == CorpusMatch(c, corpus).Some? && name == MatchName(c, corpus)
    ensures covered <==> exists i :: 0 <= i < |corpus| && corpus[i].input == c.input && corpus[i].expected == c.expected
  {
    for i := 0 to |corpus|
      invariant CorpusMatch(c, corpus) == CorpusMatch(c, corpus[i..])
      invariant forall j :: 0 <= j < i ==> corpus[j].input != c.input || corpus[j].expected != c.expected
    {
      if c.input == corpus[i].input && c.expected == corpus[i].expected {
        return corpus[i].name, true;
      }
      assert corpus[i..][1..] == corpus[i + 1..];
    }
    return "", false;
  }

  // ---- Representatives ----

  /** `next` is to replace `current`: uncovered first, then more residual errors, more reduced, earlier name. */
  predicate Preferred(corpus: seq<Fixture>, current: Case, next: Case) {
    var a, b := MatchName(current, corpus) != "", MatchName(next, corpus) != "";
    if a != b then a
    else if current.residual != next.residual then next.residual > current.residual
    else if current.reduced != next.reduced then next.reduced > current.reduced
    else LexLess(next.name, current.name)
  }

  lemma {:induction false} PreferredIsOrder(corpus: seq<Fixture>, a: Case, b: Case, c: Case)
    ensures !(Preferred(corpus, a, b) && Preferred(corpus, b, a))
    ensures a.name != b.name ==> Preferred(corpus, a, b) || Preferred(corpus, b, a)
    ensures Preferred(corpus, a, b) && Preferred(corpus, b, c) ==> Preferred(corpus, a, c)
  {
    LexTotal(a.name, b.name);
    if LexLess(b.name, a.name) && LexLess(c.name, b.name) {
      LexTransitive(c.name, b.name, a.name);
    }
  }

  /** The representative after going through the cases in order. */
  function Representative(corpus: seq<Fixture>, cs: seq<Case>): Case
    requires cs != []
  {
    var last := cs[|cs| - 1];
    if |cs| == 1 then last
    else
      var current := Representative(corpus, cs[..|cs| - 1]);
      if Preferred(corpus, current, last) then last else current
  }

  ghost predicate DistinctNames(cs: seq<Case>) {
    forall i, j :: 0 <= i < j < |cs| ==> cs[i].name != cs[j].name
  }

  /** The representative is a member preferred to every other one. */
  lemma {:induction false} RepresentativeIsBest(corpus: seq<Fixture>, cs: seq<Case>) returns (k: nat)
    requires cs != [] && DistinctNames(cs)
    ensures k < |cs| && cs[k] == Representative(corpus, cs)
    ensures forall i :: 0 <= i < |cs| && i != k ==> Preferred(corpus, cs[i], cs[k])
  {
    var n := |cs| - 1;
    if n == 0 {
      k := 0;
    } else {
      var front := cs[..n];
      var b := RepresentativeIsBest(corpus, front);
      PreferredIsOrder(corpus, front[b], cs[n], cs[n]);
      k := if Preferred(corpus, front[b], cs[n]) then n else b;
      forall i | 0 <= i < |cs| && i != k
        ensures Preferred(corpus, cs[i], cs[k])
      {
        if k == n && i != b {
          PreferredIsOrder(corpus, cs[i], front[b], cs[n]);
        }
      }
    }
  }

  /** Any order of the same cases has the same representative. */
  lemma {:induction false} RepresentativePermutes(corpus: seq<Fixture>, a: seq<Case>, b: seq<Case>)
    requires a != [] && DistinctNames(a) && DistinctNames(b) && multiset(a) == multiset(b)
    ensures b != [] && Representative(corpus, a) == Representative(corpus, b)
  {
    assert a[0] in multiset(b);
    var i := RepresentativeIsBest(corpus, a);
    var j := RepresentativeIsBest(corpus, b);
    assert a[i] in multiset(b) && b[j] in multiset(a);
    var i' :| 0 <= i' < |b| && b[i'] == a[i];
    var j' :| 0 <= j' < |a| && a[j'] == b[j];
    PreferredIsOrder(corpus, a[i], b[j], a[i]);
  }

  // ---- Groups ----

  /** The residual cases of a key, in the order captured. */
  function Members(cs: seq<Case>, key: string): seq<Case> {
    if cs == [] then []
    else
      var last := cs[|cs| - 1];
      Members(cs[..|cs| - 1], key) + if last.residual > 0 && Key(last) == key then [last] else []
  }

  function Sum(f: Case -> int, cs: seq<Case>): int {
    if cs == [] then 0 else Sum(f, cs[..|cs| - 1]) + f(cs[|cs| - 1])
  }

  function Residual(c: Case): int {
    c.residual
  }

  function Reduced(c: Case): int {
    c.reduced
  }

  function Uncovered(corpus: seq<Fixture>): Case -> int {
    c => if CorpusMatch(c, corpus).None? then 1 else 0
  }

  function Covered(corpus: seq<Fixture>): Case -> int {
    c => if CorpusMatch(c, corpus).Some? then 1 else 0
  }

  function Score(cases: int, residual: int, reduced: int, uncovered: int): int {
    cases * 100 + residual * 10 + reduced * 3 + uncovered * 25
  }

  /** What a group comes to. */
  function Summary(corpus: seq<Fixture>, cs: seq<Case>): Priority
    requires cs != []
  {
    var residual, reduced, uncovered := Sum(Residual, cs), Sum(Reduced, cs), Sum(Uncovered(corpus), cs);
    var r, stage := Representative(corpus, cs), DominantStage(cs[0]);
    Priority(Key(cs[0]), stage, cs[0].habit, cs[0].code, |cs|, residual, reduced, uncovered == 0, uncovered,
             r.name, r.status, MatchName(r, corpus),
             (if uncovered == 0 then "fix_repeated_" else "promote_and_fix_") + stage,
             Score(|cs|, residual, reduced, uncovered))
  }

  /** A group's counters, updated in place as its cases come in. */
  class Group {
    const key: string
    const stage: string
    const habit: string
    const code: string
    var cases: int
    var residual: int
    var reduced: int
    var uncovered: int
    var covered: int
    var representative: Option<Case>
    var corpusCase: string
    ghost const corpus: seq<Fixture>
    ghost var members: seq<Case>

    constructor (first: Case, ghost corpus: seq<Fixture>)
      ensures Counts() && members == [] && this.corpus == corpus && key == Key(first)
      ensures stage == DominantStage(first) && habit == first.habit && code == first.code
    {
      key, stage, habit, code := Key(first), DominantStage(first), first.habit, first.code;
      cases, residual, reduced, uncovered, covered := 0, 0, 0, 0, 0;
      representative, corpusCase := None, "";
      this.corpus, members := corpus, [];
    }

    /** The counters add up the members. */
    ghost predicate Counts()
      reads this
    {
      && cases == |members| && residual == Sum(Residual, members) && reduced == Sum(Reduced, members)
      && uncovered == Sum(Uncovered(corpus), members) && covered == Sum(Covered(corpus), members)
      && (if members == [] then representative.None? && corpusCase == ""
          else representative == Some(Representative(corpus, members))
               && corpusCase == MatchName(Representative(corpus, members), corpus))
    }

    /** The group is headed by its first member. */
    ghost predicate Valid()
      reads this
    {
      Counts() && members != [] && key == Key(members[0]) && stage == DominantStage(members[0])
      && habit == members[0].habit && code == members[0].code
    }

    method Add(c: Case, fixtures: seq<Fixture>)
      requires Counts() && fixtures == corpus
      modifies this
      ensures Counts() && members == old(members) + [c]
    {
      hide CorpusMatch, Preferred, Sum, Representative;
      MemberAdded(fixtures, members, c);
      cases := cases + 1;
      residual := residual + c.residual;
      reduced := reduced + c.reduced;
      var name, match_ := FindCorpusMatch(c, fixtures);
      if match_ {
        covered := covered + 1;
      } else {
        uncovered := uncovered + 1;
      }
      if representative.None? || Preferred(fixtures, representative.value, c) {
        representative := Some(c);
        corpusCase := name;
      }
      members := members + [c];
    }

    method Summarise() returns (p: Priority)
      requires Valid()
      ensures p == Summary(corpus, members)
    {
      p := Priority(key, stage, habit, code, cases, residual, reduced, uncovered == 0, uncovered,
                    representative.value.name, representative.value.status, corpusCase,
                    (if uncovered == 0 then "fix_repeated_" else "promote_and_fix_") + stage,
                    Score(cases, residual, reduced, uncovered));
    }
  }

  lemma {:induction false} MemberAdded(corpus: seq<Fixture>, cs: seq<Case>, c: Case)
    ensures forall f: Case -> int :: Sum(f, cs + [c]) == Sum(f, cs) + f(c)
    ensures Representative(corpus, cs + [c]) ==
      if cs == [] || Preferred(corpus, Representative(corpus, cs), c) then c else Representative(corpus, cs)
  {
  }

  /** Every case of a group is covered by the corpus or not. */
  lemma {:induction false} CoveredAndUncovered(corpus: seq<Fixture>, cs: seq<Case>)
    ensures Sum(Covered(corpus), cs) + Sum(Uncovered(corpus), cs) == |cs|
  {
    if cs != [] {
      CoveredAndUncovered(corpus, cs[..|cs| - 1]);
    }
  }

  // ---- The report ----

  /** Higher score first, then more cases, then more residual errors, then the key. */
  predicate Ahead(a: Priority, b: Priority) {
    if a.score != b.score then a.score > b.score
    else if a.cases != b.cases then a.cases > b.cases
    else if a.residual != b.residual then a.residual > b.residual
    else LexLess(a.key, b.key)
  }

  lemma {:induction false} AheadIsOrder(a: Priority, b: Priority, c: Priority)
    ensures !(Ahead(a, b) && Ahead(b, a))
    ensures a.key != b.key ==> Ahead(a, b) || Ahead(b, a)
    ensures Ahead(a, b) ==> Ahead(a, c) || Ahead(c, b)
  {
    LexTotal(a.key, b.key);
    LexTotal(a.key, c.key);
    LexTotal(c.key, b.key);
    if LexLess(a.key, b.key) && LexLess(b.key, c.key) {
      LexTransitive(a.key, b.key, c.key);
    }
  }

  lemma {:induction false} AheadIsWeakOrder()
    ensures StrictWeakOrder(Ahead)
  {
    forall x, y | Ahead(x, y)
      ensures !Ahead(y, x)
    {
      AheadIsOrder(x, y, x);
    }
    forall x, y, z | Ahead(x, y)
      ensures Ahead(x, z) || Ahead(z, y)
    {
      AheadIsOrder(x, y, z);
    }
  }

  function Residuals(cs: seq<Case>): seq<Case> {
    if cs == [] then []
    else Residuals(cs[..|cs| - 1]) + if cs[|cs| - 1].residual > 0 then [cs[|cs| - 1]] else []
  }

  ghost predicate Ranked(ps: seq<Priority>) {
    forall i, j :: 0 <= i < j < |ps| ==> Ahead(ps[i], ps[j])
  }

  ghost predicate HasKey(ps: seq<Priority>, key: string) {
    exists i :: 0 <= i < |ps| && ps[i].key == key
  }

  /** The summary of one of the groups. */
  ghost predicate Summarises(corpus: seq<Fixture>, cs: seq<Case>, p: Priority) {
    Members(cs, p.key) != [] && p == Summary(corpus, Members(cs, p.key))
  }

  /** A ranking with one summary for each group. */
  ghost predicate Reports(corpus: seq<Fixture>, cs: seq<Case>, ps: seq<Priority>) {
    && Ranked(ps)
    && (forall i :: 0 <= i < |ps| ==> Summarises(corpus, cs, ps[i]))
    && (forall key :: Members(cs, key) != [] ==> HasKey(ps, key))
  }

  // ---- What a report shows ----

  /** Compared rung by rung, `a` is higher at the first difference, or has the lesser name. */
  ghost predicate Outranks(a: seq<int>, nameA: string, b: seq<int>, nameB: string)
    requires |a| == |b|
    decreases |a|
  {
    if a == [] then LexLess(nameA, nameB) else a[0] > b[0] || (a[0] == b[0] && Outranks(a[1..], nameA, b[1..], nameB))
  }

  /** Entries go by score, then cases, then residual errors, then the earlier key. */
  ghost predicate RankedByLadder(ps: seq<Priority>) {
    forall i, j :: 0 <= i < j < |ps| ==>
      Outranks([ps[i].score, ps[i].cases, ps[i].residual], ps[i].key, [ps[j].score, ps[j].cases, ps[j].residual], ps[j].key)
  }

  /** Whether no fixture with a name has the case's input and expected output. */
  ghost predicate Unmatched(corpus: seq<Fixture>, c: Case) {
    forall i :: 0 <= i < |corpus| && FirstMatch(corpus, c, i) ==> corpus[i].name == ""
  }

  ghost predicate Matches(corpus: seq<Fixture>, c: Case, i: nat)
    requires i < |corpus|
  {
    corpus[i].input == c.input && corpus[i].expected == c.expected
  }

  ghost predicate FirstMatch(corpus: seq<Fixture>, c: Case, i: nat)
    requires i < |corpus|
  {
    Matches(corpus, c, i) && forall j :: 0 <= j < i ==> !Matches(corpus, c, j)
  }

  /** The case a group is known by goes by: unmatched ones first, then residual errors, then reductions, then the earlier name. */
  ghost predicate Represents(corpus: seq<Fixture>, best: Case, c: Case) {
    Outranks([if Unmatched(corpus, best) then 1 else 0, best.residual, best.reduced], best.name,
             [if Unmatched(corpus, c) then 1 else 0, c.residual, c.reduced], c.name)
  }

  lemma {:induction false} OutranksThree(a: seq<int>, x: string, b: seq<int>, y: string)
    requires |a| == |b| == 3
    ensures Outranks(a, x, b, y) <==>
      || a[0] > b[0]
      || (a[0] == b[0] && (a[1] > b[1] || (a[1] == b[1] && (a[2] > b[2] || (a[2] == b[2] && LexLess(x, y))))))
  {
    assert Outranks(a[1..], x, b[1..], y) <==> a[1] > b[1] || (a[1] == b[1] && Outranks(a[1..][1..], x, b[1..][1..], y));
    assert a[1..][1..] == a[2..] && b[1..][1..] == b[2..];
    assert Outranks(a[2..], x, b[2..], y) <==> a[2] > b[2] || (a[2] == b[2] && Outranks(a[2..][1..], x, b[2..][1..], y));
    assert a[2..][1..] == [] && b[2..][1..] == [];
  }

  lemma {:induction false} MatchFirst(corpus: seq<Fixture>, c: Case)
    ensures forall i :: 0 <= i < |corpus| && FirstMatch(corpus, c, i) ==> CorpusMatch(c, corpus) == Some(corpus[i].name)
    ensures (forall i :: 0 <= i < |corpus| ==> !Matches(corpus, c, i)) ==> CorpusMatch(c, corpus) == None
    ensures CorpusMatch(c, corpus).Some? ==> exists i :: 0 <= i < |corpus| && FirstMatch(corpus, c, i)
  {
    if corpus != [] {
      var rest := corpus[1..];
      MatchFirst(rest, c);
      assert forall i :: 0 <= i < |rest| ==> (Matches(rest, c, i) <==> Matches(corpus, c, i + 1));
      if Matches(corpus, c, 0) {
        assert FirstMatch(corpus, c, 0);
      } else {
        forall i | 0 <= i < |corpus| && FirstMatch(corpus, c, i)
          ensures FirstMatch(rest, c, i - 1)
        {
          forall j | 0 <= j < i - 1
            ensures !Matches(rest, c, j)
          {
            assert !Matches(corpus, c, j + 1);
          }
        }
        if CorpusMatch(c, corpus).Some? {
          var i :| 0 <= i < |rest| && FirstMatch(rest, c, i);
          forall j | 0 <= j < i + 1
            ensures !Matches(corpus, c, j)
          {
            assert j > 0 ==> !Matches(rest, c, j - 1);
          }
          assert FirstMatch(corpus, c, i + 1);
        }
      }
    }
  }

  lemma {:induction false} UnmatchedIff(corpus: seq<Fixture>, c: Case)
    ensures Unmatched(corpus, c) <==> MatchName(c, corpus) == ""
  {
    hide CorpusMatch, FirstMatch, Matches;
    MatchFirst(corpus, c);
  }

  /** One is preferred to another exactly if it represents it better. */
  lemma {:induction false} PreferredIff(corpus: seq<Fixture>, current: Case, next: Case)
    ensures Preferred(corpus, current, next) <==> Represents(corpus, next, current)
  {
    hide Unmatched, MatchName, Outranks;
    UnmatchedIff(corpus, current);
    UnmatchedIff(corpus, next);
    OutranksThree([if Unmatched(corpus, next) then 1 else 0, next.residual, next.reduced], next.name,
                  [if Unmatched(corpus, current) then 1 else 0, current.residual, current.reduced], current.name);
  }

  /** An entry is a group's: its counts over the group's cases, the score they come to, and the case that represents it best. */
  ghost predicate Entered(corpus: seq<Fixture>, cs: seq<Case>, p: Priority) {
    var ms := Members(cs, p.key);
    && ms != [] && (forall c :: c in ms <==> c in cs && c.residual > 0 && c.habit + " -> " + c.code == p.key)
    && p.habit == ms[0].habit && p.code == ms[0].code && p.stage == DominantStage(ms[0])
    && p.cases == |ms| && p.residual == Sum((c: Case) => c.residual, ms) && p.reduced == Sum((c: Case) => c.reduced, ms)
    && p.uncovered == Sum(Uncovered(corpus), ms) && (p.covered <==> p.uncovered == 0)
    && p.score == 100 * p.cases + 10 * p.residual + 3 * p.reduced + 25 * p.uncovered
    && p.action == (if p.covered then "fix_repeated_" else "promote_and_fix_") + p.stage
    && exists k :: 0 <= k < |ms| && p.representative == ms[k].name && p.status == ms[k].status && p.corpusCase == MatchName(ms[k], corpus)
         && forall i :: 0 <= i < |ms| && i != k ==> Represents(corpus, ms[k], ms[i])
  }

  lemma {:induction false} SumSame(f: Case -> int, g: Case -> int, cs: seq<Case>)
    requires forall c :: f(c) == g(c)
    ensures Sum(f, cs) == Sum(g, cs)
  {
    if cs != [] {
      SumSame(f, g, cs[..|cs| - 1]);
    }
  }

  lemma {:induction false} MembersAre(cs: seq<Case>, key: string, c: Case)
    ensures c in Members(cs, key) <==> c in cs && c.residual > 0 && c.habit + " -> " + c.code == key
  {
    if cs != [] {
      MembersAre(cs[..|cs| - 1], key, c);
      assert cs == cs[..|cs| - 1] + [cs[|cs| - 1]];
    }
  }

  lemma {:induction false} SummaryEntered(corpus: seq<Fixture>, cs: seq<Case>, p: Priority)
    requires DistinctNames(cs) && Summarises(corpus, cs, p)
    ensures Entered(corpus, cs, p)
  {
    hide Members, Preferred, Represents, DominantStage, MatchName, DistinctNames;
    var ms := Members(cs, p.key);
    MembersDistinct(cs, p.key);
    forall c
      ensures c in ms <==> c in cs && c.residual > 0 && c.habit + " -> " + c.code == p.key
    {
      MembersAre(cs, p.key, c);
    }
    SumSame(Residual, (c: Case) => c.residual, ms);
    SumSame(Reduced, (c: Case) => c.reduced, ms);
    var k := RepresentativeIsBest(corpus, ms);
    forall i | 0 <= i < |ms| && i != k
      ensures Represents(corpus, ms[k], ms[i])
    {
      PreferredIff(corpus, ms[i], ms[k]);
    }
  }

  /** With distinct names, a report is ranked by the ladder and each entry is its group's. */
  lemma {:induction false} ReportShows(corpus: seq<Fixture>, cs: seq<Case>, ps: seq<Priority>)
    requires DistinctNames(cs) && Reports(corpus, cs, ps)
    ensures RankedByLadder(ps) && forall i :: 0 <= i < |ps| ==> Entered(corpus, cs, ps[i])
  {
    hide Summarises, Entered, Outranks, DistinctNames;
    forall i | 0 <= i < |ps|
      ensures Entered(corpus, cs, ps[i])
    {
      SummaryEntered(corpus, cs, ps[i]);
    }
    forall i, j | 0 <= i < j < |ps|
      ensures Outranks([ps[i].score, ps[i].cases, ps[i].residual], ps[i].key, [ps[j].score, ps[j].cases, ps[j].residual], ps[j].key)
    {
      assert Ahead(ps[i], ps[j]);
      OutranksThree([ps[i].score, ps[i].cases, ps[i].residual], ps[i].key, [ps[j].score, ps[j].cases, ps[j].residual], ps[j].key);
    }
  }

  ghost predicate GroupFits(corpus: seq<Fixture>, cs: seq<Case>, key: string, g: Group)
    reads g
  {
    g.corpus == corpus && g.Valid() && g.key == key && g.members == Members(cs, key)
  }

  lemma {:induction false} MembersSnoc(cs: seq<Case>, c: Case, key: string)
    ensures Members(cs + [c], key) == if c.residual > 0 && Key(c) == key then Members(cs, key) + [c] else Members(cs, key)
  {
  }

  lemma {:induction false} MembersHave(cs: seq<Case>, key: string)
    ensures forall i :: 0 <= i < |Members(cs, key)| ==> var c := Members(cs, key)[i]; c in cs && Key(c) == key && c.residual > 0
  {
    if cs != [] {
      MembersHave(cs[..|cs| - 1], key);
      assert cs == cs[..|cs| - 1] + [cs[|cs| - 1]];
    }
  }

  ghost predicate GroupsFit(corpus: seq<Fixture>, cs: seq<Case>, groups: map<string, Group>)
    reads groups.Values
  {
    && (forall key :: key in groups ==> GroupFits(corpus, cs, key, groups[key]))
    && (forall key :: Members(cs, key) != [] ==> key in groups)
  }

  lemma {:induction false} AllMembersSnoc(cs: seq<Case>, c: Case)
    ensures forall key :: Members(cs + [c], key) == if c.residual > 0 && Key(c) == key then Members(cs, key) + [c] else Members(cs, key)
  {
  }

  /** One case goes to its group, a new one if it is the first of its key. */
  method PutCase(c: Case, corpus: seq<Fixture>, groups0: map<string, Group>, ghost before: seq<Case>) returns (groups: map<string, Group>)
    requires c.residual > 0 && GroupsFit(corpus, before, groups0)
    modifies groups0.Values
    ensures GroupsFit(corpus, before + [c], groups)
    ensures forall g :: g in groups.Values ==> g in groups0.Values || fresh(g)
  {
    hide Members, DominantStage, Key, Sum, Representative, MatchName, CorpusMatch;
    groups := groups0;
    AllMembersSnoc(before, c);
    var key := Key(c);
    var g;
    if key in groups {
      g := groups[key];
    } else {
      g := new Group(c, corpus);
      groups := groups[key := g];
    }
    g.Add(c, corpus);
    assert GroupFits(corpus, before + [c], key, g);
    forall k | k in groups && k != key
      ensures GroupFits(corpus, before + [c], k, groups[k])
    {
      assert groups[k].key == k;
    }
  }

  /** Groups the residual cases by key. */
  method GroupCases(cs: seq<Case>, corpus: seq<Fixture>) returns (groups: map<string, Group>, residualCases: nat)
    ensures residualCases == |Residuals(cs)| && GroupsFit(corpus, cs, groups)
  {
    hide Members, Residuals, GroupFits;
    groups, residualCases := map[], 0;
    assert cs[..0] == [];
    NoMembers();
    for i := 0 to |cs|
      invariant residualCases == |Residuals(cs[..i])| && GroupsFit(corpus, cs[..i], groups)
      invariant forall g :: g in groups.Values ==> fresh(g)
    {
      assert cs[..i + 1] == cs[..i] + [cs[i]];
      ResidualsSnoc(cs[..i], cs[i]);
      if cs[i].residual <= 0 {
        SkipCase(corpus, cs[..i], cs[i], groups);
        continue;
      }
      residualCases := residualCases + 1;
      groups := PutCase(cs[i], corpus, groups, cs[..i]);
    }
    assert cs[..|cs|] == cs;
  }

  lemma {:induction false} SkipCase(corpus: seq<Fixture>, cs: seq<Case>, c: Case, groups: map<string, Group>)
    requires c.residual <= 0 && GroupsFit(corpus, cs, groups)
    ensures GroupsFit(corpus, cs + [c], groups)
  {
    hide Members;
    AllMembersSnoc(cs, c);
  }

  lemma {:induction false} NoMembers()
    ensures Residuals([]) == [] && forall key :: Members([], key) == []
  {
  }

  lemma {:induction false} ResidualsSnoc(cs: seq<Case>, c: Case)
    ensures Residuals(cs + [c]) == if c.residual > 0 then Residuals(cs) + [c] else Residuals(cs)
  {
  }

  lemma {:induction false} GroupSummary(corpus: seq<Fixture>, cs: seq<Case>, key: string, g: Group)
    requires GroupFits(corpus, cs, key, g)
    ensures g.Valid() && g.corpus == corpus && g.members != []
    ensures Summarises(corpus, cs, Summary(corpus, g.members)) && Summary(corpus, g.members).key == key
  {
  }

  /** The summaries of the groups, in any order. */
  method Summaries(groups: map<string, Group>, ghost cs: seq<Case>, ghost corpus: seq<Fixture>) returns (ps: seq<Priority>)
    requires GroupsFit(corpus, cs, groups)
    ensures forall i :: 0 <= i < |ps| ==> Summarises(corpus, cs, ps[i])
    ensures forall i, j :: 0 <= i < j < |ps| ==> ps[i].key != ps[j].key
    ensures forall key :: Members(cs, key) != [] ==> HasKey(ps, key)
  {
    hide Members, Summarises, GroupFits, Summary, Group.Valid;
    ps := [];
    var left := groups.Keys;
    while left != {}
      invariant left <= groups.Keys
      invariant forall i :: 0 <= i < |ps| ==> Summarises(corpus, cs, ps[i]) && ps[i].key in groups && ps[i].key !in left
      invariant forall i, j :: 0 <= i < j < |ps| ==> ps[i].key != ps[j].key
      invariant forall key :: key in groups && key !in left ==> HasKey(ps, key)
      decreases left
    {
      var key :| key in left;
      assert GroupFits(corpus, cs, key, groups[key]);
      GroupSummary(corpus, cs, key, groups[key]);
      var p := groups[key].Summarise();
      ghost var was := ps;
      ps := ps + [p];
      left := left - {key};
      assert ps[|was|].key == key;
      forall k | k in groups && k !in left
        ensures HasKey(ps, k)
      {
        if k != key {
          HasKeyMore(was, p, k);
        }
      }
    }
  }

  lemma {:induction false} HasKeyMore(ps: seq<Priority>, p: Priority, key: string)
    requires HasKey(ps, key)
    ensures HasKey(ps + [p], key)
  {
    var i :| 0 <= i < |ps| && ps[i].key == key;
    assert (ps + [p])[i].key == key;
  }

  /** Sorting summaries with distinct keys gives a ranking of the same ones. */
  lemma {:induction false} SortRanks(corpus: seq<Fixture>, cs: seq<Case>, ps: seq<Priority>)
    requires forall i :: 0 <= i < |ps| ==> Summarises(corpus, cs, ps[i])
    requires forall i, j :: 0 <= i < j < |ps| ==> ps[i].key != ps[j].key
    requires forall key :: Members(cs, key) != [] ==> HasKey(ps, key)
    ensures Reports(corpus, cs, Sort(Ahead, ps))
  {
    hide Members, Summarises, Sort, Ahead;
    var sorted := Sort(Ahead, ps);
    AheadIsWeakOrder();
    SortOrdered(Ahead, ps);
    var at := SortPlaces(Ahead, ps);
    var source := SortSources(Ahead, ps);
    forall i, j | 0 <= i < j < |sorted|
      ensures Ahead(sorted[i], sorted[j])
    {
      assert sorted[i] == ps[source[i]] && sorted[j] == ps[source[j]] && source[i] != source[j];
      AheadIsOrder(sorted[i], sorted[j], sorted[i]);
    }
    forall key | Members(cs, key) != []
      ensures HasKey(sorted, key)
    {
      var i :| 0 <= i < |ps| && ps[i].key == key;
      assert sorted[at[i]].key == key;
    }
  }

  /** The whole report: the ranked groups, cut to the first `topN`. */
  method BuildReport(cs: seq<Case>, corpus: seq<Fixture>, topN: int) returns (ps: seq<Priority>, residualCases: nat, ghost all: seq<Priority>)
    ensures Reports(corpus, cs, all) && ps == (if topN > 0 && |all| > topN then all[..topN] else all)
    ensures residualCases == |Residuals(cs)|
  {
    hide Reports, Summarises, GroupFits, Sort, Members;
    var groups;
    groups, residualCases := GroupCases(cs, corpus);
    ps := Summaries(groups, cs, corpus);
    SortRanks(corpus, cs, ps);
    ps := Sort(Ahead, ps);
    all := ps;
    if topN > 0 && |ps| > topN {
      ps := ps[..topN];
    }
  }

  // ---- Conservation ----

  function SumOver(f: Case -> int, cs: seq<Case>, keys: seq<string>): int {
    if keys == [] then 0 else SumOver(f, cs, keys[..|keys| - 1]) + Sum(f, Members(cs, keys[|keys| - 1]))
  }

  lemma {:induction false} SumSnoc(f: Case -> int, cs: seq<Case>, c: Case)
    ensures Sum(f, cs + [c]) == Sum(f, cs) + f(c)
  {
    assert (cs + [c])[..|cs|] == cs;
  }

  ghost predicate KeysApart(keys: seq<string>) {
    forall i, j :: 0 <= i < j < |keys| ==> keys[i] != keys[j]
  }

  /** The keys include every residual case's. */
  ghost predicate KeysCover(cs: seq<Case>, keys: seq<string>) {
    forall c :: c in cs && c.residual > 0 ==> Key(c) in keys
  }

  lemma {:induction false} KeysFront(keys: seq<string>)
    requires KeysApart(keys) && keys != []
    ensures var n := |keys| - 1; KeysApart(keys[..n]) && keys[n] !in keys[..n] && forall key :: key in keys <==> key in keys[..n] || key == keys[n]
  {
    assert keys == keys[..|keys| - 1] + [keys[|keys| - 1]];
  }

  lemma {:induction false} SumOverSnoc(f: Case -> int, cs: seq<Case>, c: Case, keys: seq<string>)
    requires KeysApart(keys)
    ensures SumOver(f, cs + [c], keys) == SumOver(f, cs, keys) + if c.residual > 0 && Key(c) in keys then f(c) else 0
  {
    if keys != [] {
      hide Members, Key, KeysApart, Sum;
      var front, key := keys[..|keys| - 1], keys[|keys| - 1];
      KeysFront(keys);
      SumOverSnoc(f, cs, c, front);
      MembersSnoc(cs, c, key);
      SumSnoc(f, Members(cs, key), c);
    }
  }

  lemma {:induction false} CoverFront(cs: seq<Case>, keys: seq<string>)
    requires KeysCover(cs, keys) && cs != []
    ensures var n := |cs| - 1; KeysCover(cs[..n], keys) && (cs[n].residual > 0 ==> Key(cs[n]) in keys) && cs == cs[..n] + [cs[n]]
  {
    hide Key;
    assert cs == cs[..|cs| - 1] + [cs[|cs| - 1]];
  }

  /** Over distinct keys that include every residual case's, group sums add up to the overall sum. */
  lemma {:induction false} GroupsConserve(f: Case -> int, cs: seq<Case>, keys: seq<string>)
    requires KeysApart(keys) && KeysCover(cs, keys)
    ensures SumOver(f, cs, keys) == Sum(f, Residuals(cs))
  {
    if cs == [] {
      NothingToSum(f, keys);
    } else {
      hide Members, Key, Sum, SumOver, Residuals, KeysApart, KeysCover;
      var front, c := cs[..|cs| - 1], cs[|cs| - 1];
      CoverFront(cs, keys);
      GroupsConserve(f, front, keys);
      SumOverSnoc(f, front, c, keys);
      ResidualsSnoc(front, c);
      SumSnoc(f, Residuals(front), c);
    }
  }

  lemma {:induction false} NothingToSum(f: Case -> int, keys: seq<string>)
    ensures SumOver(f, [], keys) == 0
  {
    if keys != [] {
      NothingToSum(f, keys[..|keys| - 1]);
    }
  }

  function Total(g: Priority -> int, ps: seq<Priority>): int {
    if ps == [] then 0 else Total(g, ps[..|ps| - 1]) + g(ps[|ps| - 1])
  }

  lemma {:induction false} TotalIsSumOver(g: Priority -> int, f: Case -> int, corpus: seq<Fixture>, cs: seq<Case>, ps: seq<Priority>, keys: seq<string>)
    requires |keys| == |ps| && forall i :: 0 <= i < |ps| ==> keys[i] == ps[i].key && g(ps[i]) == Sum(f, Members(cs, keys[i]))
    ensures Total(g, ps) == SumOver(f, cs, keys)
  {
    if ps != [] {
      TotalIsSumOver(g, f, corpus, cs, ps[..|ps| - 1], keys[..|keys| - 1]);
    }
  }

  /** Before the cut, what the groups count adds up to what was captured. */
  lemma {:induction false} ReportConserves(g: Priority -> int, f: Case -> int, corpus: seq<Fixture>, cs: seq<Case>, ps: seq<Priority>)
    requires Reports(corpus, cs, ps)
    requires forall i :: 0 <= i < |ps| ==> g(ps[i]) == Sum(f, Members(cs, ps[i].key))
    ensures Total(g, ps) == Sum(f, Residuals(cs))
  {
    hide Ahead;
    var keys := seq(|ps|, i requires 0 <= i < |ps| => ps[i].key);
    forall i, j | 0 <= i < j < |keys|
      ensures keys[i] != keys[j]
    {
      AheadIsOrder(ps[i], ps[j], ps[i]);
      assert Summarises(corpus, cs, ps[i]) && Summarises(corpus, cs, ps[j]);
    }
    forall i | 0 <= i < |cs| && cs[i].residual > 0
      ensures Key(cs[i]) in keys
    {
      MembersOf(cs, i);
      var j :| 0 <= j < |ps| && ps[j].key == Key(cs[i]);
      assert keys[j] == Key(cs[i]);
    }
    TotalIsSumOver(g, f, corpus, cs, ps, keys);
    GroupsConserve(f, cs, keys);
  }

  lemma {:induction false} MembersOf(cs: seq<Case>, i: nat)
    requires i < |cs| && cs[i].residual > 0
    ensures Members(cs, Key(cs[i])) != []
  {
    if i < |cs| - 1 {
      MembersOf(cs[..|cs| - 1], i);
    }
  }

  function One(c: Case): int {
    1
  }

  lemma {:induction false} SumOne(cs: seq<Case>)
    ensures Sum(One, cs) == |cs|
  {
    if cs != [] {
      SumOne(cs[..|cs| - 1]);
    }
  }

  /** Group case counts, residual errors and reductions add up to those of the residual cases. */
  lemma {:induction false} CountsConserved(corpus: seq<Fixture>, cs: seq<Case>, ps: seq<Priority>)
    requires Reports(corpus, cs, ps)
    ensures Total((p: Priority) => p.cases, ps) == |Residuals(cs)|
    ensures Total((p: Priority) => p.residual, ps) == Sum(Residual, Residuals(cs))
    ensures Total((p: Priority) => p.reduced, ps) == Sum(Reduced, Residuals(cs))
    ensures Total((p: Priority) => p.uncovered, ps) == Sum(Uncovered(corpus), Residuals(cs))
  {
    forall i | 0 <= i < |ps|
      ensures Summarises(corpus, cs, ps[i]) && ps[i].cases == Sum(One, Members(cs, ps[i].key))
    {
      SumOne(Members(cs, ps[i].key));
    }
    SumOne(Residuals(cs));
    ReportConserves((p: Priority) => p.cases, One, corpus, cs, ps);
    ReportConserves((p: Priority) => p.residual, Residual, corpus, cs, ps);
    ReportConserves((p: Priority) => p.reduced, Reduced, corpus, cs, ps);
    ReportConserves((p: Priority) => p.uncovered, Uncovered(corpus), corpus, cs, ps);
  }

  // ---- Order of the input ----

  /** Two rankings of the same groups are the same. */
  lemma {:induction false} RankedSame(a: seq<Priority>, b: seq<Priority>)
    requires Ranked(a) && Ranked(b) && forall p :: p in a <==> p in b
    ensures a == b
  {
    assert forall i :: 0 <= i < |a| ==> a[i] in b;
    assert forall i :: 0 <= i < |b| ==> b[i] in a;
    if a != [] && b != [] {
      HeadsSame(a, b);
      forall p
        ensures p in a[1..] <==> p in b[1..]
      {
        TailMember(a, p);
        TailMember(b, p);
      }
      RankedSame(a[1..], b[1..]);
      assert a == [a[0]] + a[1..] && b == [b[0]] + b[1..];
    }
  }

  lemma {:induction false} HeadsSame(a: seq<Priority>, b: seq<Priority>)
    requires a != [] && b != [] && Ranked(a) && Ranked(b) && a[0] in b && b[0] in a
    ensures a[0] == b[0]
  {
    hide Ahead;
    var i :| 0 <= i < |b| && b[i] == a[0];
    var j :| 0 <= j < |a| && a[j] == b[0];
    AheadIsOrder(a[0], b[0], a[0]);
  }

  lemma {:induction false} TailMember(a: seq<Priority>, p: Priority)
    requires a != [] && Ranked(a)
    ensures p in a[1..] <==> p in a && p != a[0]
  {
    hide Ahead;
    if p in a[1..] {
      var i :| 0 <= i < |a[1..]| && a[1..][i] == p;
      assert a[i + 1] == p;
      AheadIsOrder(a[0], p, p);
    }
    if p in a && p != a[0] {
      var i :| 0 <= i < |a| && a[i] == p;
      assert a[1..][i - 1] == p;
    }
  }

  /** A report is determined by the cases. */
  lemma {:induction false} ReportUnique(corpus: seq<Fixture>, cs: seq<Case>, a: seq<Priority>, b: seq<Priority>)
    requires Reports(corpus, cs, a) && Reports(corpus, cs, b)
    ensures a == b
  {
    forall p
      ensures p in a <==> p in b
    {
      InReport(corpus, cs, a, p);
      InReport(corpus, cs, b, p);
    }
    RankedSame(a, b);
  }

  lemma {:induction false} InReport(corpus: seq<Fixture>, cs: seq<Case>, ps: seq<Priority>, p: Priority)
    requires Reports(corpus, cs, ps)
    ensures p in ps <==> Summarises(corpus, cs, p)
  {
  }

  lemma {:induction false} MembersPermute(a: seq<Case>, key: string, c: Case)
    ensures multiset(Members(a, key))[c] == if c.residual > 0 && Key(c) == key then multiset(a)[c] else 0
  {
    hide Key;
    if a != [] {
      var front, last := a[..|a| - 1], a[|a| - 1];
      MembersPermute(front, key, c);
      MembersSnoc(front, last, key);
      hide Members;
      assert a == front + [last];
      CountSnoc(front, last, c);
      CountSnoc(Members(front, key), last, c);
    }
  }

  lemma {:induction false} CountSnoc(s: seq<Case>, x: Case, c: Case)
    ensures multiset(s + [x])[c] == multiset(s)[c] + if x == c then 1 else 0
  {
  }

  lemma {:induction false} SameMembers(a: seq<Case>, b: seq<Case>, key: string)
    requires multiset(a) == multiset(b)
    ensures multiset(Members(a, key)) == multiset(Members(b, key))
  {
    hide Members;
    forall c: Case
      ensures multiset(Members(a, key))[c] == multiset(Members(b, key))[c]
    {
      MembersPermute(a, key, c);
      MembersPermute(b, key, c);
    }
  }

  lemma {:induction false} MembersDistinct(cs: seq<Case>, key: string)
    requires DistinctNames(cs)
    ensures DistinctNames(Members(cs, key))
  {
    if cs != [] {
      var front, last := cs[..|cs| - 1], cs[|cs| - 1];
      MembersDistinct(front, key);
      MembersHave(front, key);
      var m := Members(front, key);
      forall i | 0 <= i < |m|
        ensures m[i].name != last.name
      {
        var j :| 0 <= j < |front| && front[j] == m[i];
        assert cs[j] == front[j];
      }
    }
  }

  lemma {:induction false} SumTakes(f: Case -> int, s: seq<Case>, k: nat)
    requires k < |s|
    ensures Sum(f, s) == Sum(f, s[..k] + s[k + 1..]) + f(s[k])
  {
    var n := |s| - 1;
    var t := s[..k] + s[k + 1..];
    if k < n {
      SumTakes(f, s[..n], k);
      assert t[..n - 1] == s[..n][..k] + s[..n][k + 1..];
      assert t[n - 1] == s[n];
    } else {
      assert t == s[..n];
    }
  }

  lemma {:induction false} TakenOut(s: seq<Case>, k: nat)
    requires k < |s|
    ensures multiset(s[..k] + s[k + 1..]) == multiset(s) - multiset{s[k]}
  {
    assert s == s[..k] + [s[k]] + s[k + 1..];
  }

  lemma {:induction false} SumStep(f: Case -> int, s: seq<Case>)
    ensures Sum(f, s) == if s == [] then 0 else Sum(f, s[..|s| - 1]) + f(s[|s| - 1])
  {
  }

  lemma {:induction false} FrontPermutes(a: seq<Case>, b: seq<Case>) returns (k: nat)
    requires a != [] && multiset(a) == multiset(b)
    ensures k < |b| && b[k] == a[|a| - 1] && multiset(a[..|a| - 1]) == multiset(b[..k] + b[k + 1..])
  {
    var front, last := a[..|a| - 1], a[|a| - 1];
    assert a == front + [last];
    assert last in multiset(b);
    k :| 0 <= k < |b| && b[k] == last;
    TakenOut(b, k);
  }

  /** Sums do not depend on the order. */
  lemma {:induction false} SumPermutes(f: Case -> int, a: seq<Case>, b: seq<Case>)
    requires multiset(a) == multiset(b)
    ensures Sum(f, a) == Sum(f, b) && |a| == |b|
  {
    hide Sum;
    assert |multiset(a)| == |a| && |multiset(b)| == |b|;
    SumStep(f, a);
    SumStep(f, b);
    if a != [] {
      var k := FrontPermutes(a, b);
      SumTakes(f, b, k);
      SumPermutes(f, a[..|a| - 1], b[..k] + b[k + 1..]);
    }
  }

  /** All residual cases of a key would head their group alike. */
  ghost predicate HeadsAgree(cs: seq<Case>) {
    forall i, j :: 0 <= i < |cs| && 0 <= j < |cs| ==> HeadAgrees(cs[i], cs[j])
  }

  predicate HeadAgrees(a: Case, b: Case) {
    a.residual > 0 && b.residual > 0 && Key(a) == Key(b) ==>
      DominantStage(a) == DominantStage(b) && a.habit == b.habit && a.code == b.code
  }

  lemma {:induction false} SummaryPermutes(corpus: seq<Fixture>, a: seq<Case>, b: seq<Case>)
    requires a != [] && DistinctNames(a) && DistinctNames(b) && multiset(a) == multiset(b)
    requires b != [] ==> Key(a[0]) == Key(b[0]) && DominantStage(a[0]) == DominantStage(b[0]) && a[0].habit == b[0].habit && a[0].code == b[0].code
    ensures b != [] && Summary(corpus, a) == Summary(corpus, b)
  {
    hide DominantStage, Representative, Sum, MatchName, Key;
    RepresentativePermutes(corpus, a, b);
    SumPermutes(Residual, a, b);
    SumPermutes(Reduced, a, b);
    SumPermutes(Uncovered(corpus), a, b);
  }

  lemma {:induction false} GroupPermutes(corpus: seq<Fixture>, a: seq<Case>, b: seq<Case>, p: Priority)
    requires DistinctNames(a) && DistinctNames(b) && multiset(a) == multiset(b) && HeadsAgree(a)
    requires Summarises(corpus, a, p)
    ensures Summarises(corpus, b, p)
  {
    hide Summary, Members, Representative, DominantStage, Sum, DistinctNames;
    var x, y := Members(a, p.key), Members(b, p.key);
    SameMembers(a, b, p.key);
    MembersDistinct(a, p.key);
    MembersDistinct(b, p.key);
    MembersHave(a, p.key);
    MembersHave(b, p.key);
    assert x[0] in multiset(y);
    assert y[0] in multiset(b) && y[0] in multiset(a);
    var i :| 0 <= i < |a| && a[i] == x[0];
    var j :| 0 <= j < |a| && a[j] == y[0];
    assert HeadAgrees(a[i], a[j]);
    SummaryPermutes(corpus, x, y);
  }

  /** With distinct names and groups whose cases share a stage, any order of the input gives the same report. */
  lemma {:induction false} ReportPermutes(corpus: seq<Fixture>, a: seq<Case>, b: seq<Case>, ps: seq<Priority>)
    requires DistinctNames(a) && DistinctNames(b) && multiset(a) == multiset(b) && HeadsAgree(a)
    requires Reports(corpus, a, ps)
    ensures Reports(corpus, b, ps)
  {
    hide DistinctNames, HeadsAgree, Ranked, Members, Summarises;
    forall i | 0 <= i < |ps|
      ensures Summarises(corpus, b, ps[i])
    {
      GroupPermutes(corpus, a, b, ps[i]);
    }
    forall key | Members(b, key) != []
      ensures HasKey(ps, key)
    {
      SameMembers(a, b, key);
      assert Members(b, key)[0] in multiset(Members(a, key));
    }
  }

  /** The same cases with the one at `i` first. */
  function MoveFirst(cs: seq<Case>, i: nat): seq<Case>
    requires i < |cs|
  {
    [cs[i]] + (cs[..i] + cs[i + 1..])
  }

  lemma {:induction false} MoveFirstPermutes(cs: seq<Case>, i: nat)
    requires i < |cs| && DistinctNames(cs)
    ensures multiset(MoveFirst(cs, i)) == multiset(cs) && DistinctNames(MoveFirst(cs, i))
  {
    TakenOut(cs, i);
    MoveFirstDistinct(cs, i);
    hide DistinctNames;
    assert cs[i] in multiset(cs);
  }

  lemma {:induction false} MoveFirstDistinct(cs: seq<Case>, i: nat)
    requires i < |cs| && DistinctNames(cs)
    ensures DistinctNames(MoveFirst(cs, i))
  {
    var b := MoveFirst(cs, i);
    var from_ := seq(|cs|, k => if k == 0 then i else if k <= i then k - 1 else k);
    forall k | 0 <= k < |b|
      ensures b[k] == cs[from_[k]]
    {
    }
    forall j, k | 0 <= j < k < |b|
      ensures b[j].name != b[k].name
    {
      assert from_[j] < from_[k] || from_[k] < from_[j];
    }
  }

  /** The first case heads its group. */
  lemma {:induction false} FirstHeads(cs: seq<Case>)
    requires cs != [] && cs[0].residual > 0
    ensures Members(cs, Key(cs[0])) != [] && Members(cs, Key(cs[0]))[0] == cs[0]
  {
    if |cs| > 1 {
      FirstHeads(cs[..|cs| - 1]);
    }
  }

  /** A report shows of each group the stage, habit and code of the case that heads it. */
  lemma {:induction false} ReportShowsHead(corpus: seq<Fixture>, cs: seq<Case>, ps: seq<Priority>, i: nat) returns (p: nat)
    requires i < |cs| && DistinctNames(cs) && cs[i].residual > 0 && Reports(corpus, MoveFirst(cs, i), ps)
    ensures p < |ps| && ps[p].key == Key(cs[i])
    ensures ps[p].stage == DominantStage(cs[i]) && ps[p].habit == cs[i].habit && ps[p].code == cs[i].code
  {
    hide DominantStage, Representative, Sum, MatchName, Key, Ranked, Members;
    var b := MoveFirst(cs, i);
    FirstHeads(b);
    assert HasKey(ps, Key(cs[i]));
    p :| 0 <= p < |ps| && ps[p].key == Key(cs[i]);
    assert Summarises(corpus, b, ps[p]);
  }

  lemma {:induction false} RankedKeys(corpus: seq<Fixture>, cs: seq<Case>, ps: seq<Priority>, p: nat, q: nat)
    requires Reports(corpus, cs, ps) && p < |ps| && q < |ps| && ps[p].key == ps[q].key
    ensures ps[p] == ps[q]
  {
    assert Summarises(corpus, cs, ps[p]) && Summarises(corpus, cs, ps[q]);
  }

  /**
   With distinct names, every order of the input gives the same report exactly when, in each group, all
   cases share the stage (and the habit and code that their key spells).
   */
  lemma {:induction false} ReportOrderFreeIff(corpus: seq<Fixture>, a: seq<Case>, ps: seq<Priority>)
    requires DistinctNames(a) && Reports(corpus, a, ps)
    ensures (forall b: seq<Case> :: multiset(b) == multiset(a) && DistinctNames(b) ==> Reports(corpus, b, ps)) <==> HeadsAgree(a)
  {
    hide Reports, DistinctNames, HeadAgrees;
    if HeadsAgree(a) {
      forall b: seq<Case> | multiset(b) == multiset(a) && DistinctNames(b)
        ensures Reports(corpus, b, ps)
      {
        ReportPermutes(corpus, a, b, ps);
      }
    }
    if forall b: seq<Case> :: multiset(b) == multiset(a) && DistinctNames(b) ==> Reports(corpus, b, ps) {
      forall i, j | 0 <= i < |a| && 0 <= j < |a|
        ensures HeadAgrees(a[i], a[j])
      {
        MoveFirstPermutes(a, i);
        MoveFirstPermutes(a, j);
        HeadsSeen(corpus, a, ps, i, j);
      }
    }
  }

  lemma {:induction false} HeadsSeen(corpus: seq<Fixture>, a: seq<Case>, ps: seq<Priority>, i: nat, j: nat)
    requires DistinctNames(a) && i < |a| && j < |a|
    requires Reports(corpus, MoveFirst(a, i), ps) && Reports(corpus, MoveFirst(a, j), ps)
    ensures HeadAgrees(a[i], a[j])
  {
    hide Reports, DistinctNames, DominantStage, Key;
    if a[i].residual > 0 && a[j].residual > 0 && Key(a[i]) == Key(a[j]) {
      var p := ReportShowsHead(corpus, a, ps, i);
      var q := ReportShowsHead(corpus, a, ps, j);
      RankedKeys(corpus, MoveFirst(a, i), ps, p, q);
    }
  }

  /** Two cases of one group: which of them is captured first decides the stage reported. */
  const PARSER_CASE := Case("a", "h", "E1", 1, 0, 0, 1, 0, "ok", "", "")
  const CHECK_CASE := Case("b", "h", "E1", 0, 0, 1, 1, 0, "ok", "", "")

  lemma {:induction false} PairMembers(a: Case, b: Case)
    requires a.residual > 0 && b.residual > 0 && Key(a) == Key(b)
    ensures Members([a, b], Key(a)) == [a, b]
  {
    MembersSnoc([], a, Key(a));
    MembersSnoc([a], b, Key(a));
    assert [a] + [b] == [a, b] && [] + [a] == [a];
  }

  lemma {:induction false} StageFollowsOrder()
    ensures var a, b := PARSER_CASE, CHECK_CASE;
      && DistinctNames([a, b]) && Members([a, b], Key(a)) == [a, b] && Members([b, a], Key(a)) == [b, a]
      && Summary([], [a, b]).stage == "parser" && Summary([], [b, a]).stage == "check"
  {
    hide Members, DominantStage, Representative, Sum, MatchName;
    DominantStageIff(PARSER_CASE);
    DominantStageIff(CHECK_CASE);
    PairMembers(PARSER_CASE, CHECK_CASE);
    PairMembers(CHECK_CASE, PARSER_CASE);
  }
}
