/**
 Building a dependency as a library object: drop `main`, qualify the exported symbols
 with the package name, and keep only what the consumer's required symbols reach.
 */
module LibraryMode {

  import opened Mir
  import opened Occurrence
  import Reachability
  import opened Wrappers

  // ---- Names and resolution ----

  ghost predicate DistinctNames(fs: seq<Function>) {
    forall i, j :: 0 <= i < j < |fs| ==> fs[i].name != fs[j].name
  }

  /** The by-name index: nameless functions are not entered and the last of several wins. */
  function Index(fs: seq<Function>): map<string, Function> {
    if fs == [] then map[]
    else
      var last := fs[|fs| - 1];
      var rest := Index(fs[..|fs| - 1]);
      if last.name == "" then rest else rest[last.name := last]
  }

  lemma {:induction false} IndexHolds(fs: seq<Function>, s: string)
    ensures s in Index(fs) ==> Index(fs)[s] in fs && Index(fs)[s].name == s && s != ""
    ensures s in Index(fs) <==> s != "" && exists f :: f in fs && f.name == s
  {
    if fs != [] {
      IndexHolds(fs[..|fs| - 1], s);
      assert fs == fs[..|fs| - 1] + [fs[|fs| - 1]];
    }
  }

  lemma {:induction false} IndexOfDistinct(fs: seq<Function>, i: nat)
    requires DistinctNames(fs) && i < |fs| && fs[i].name != ""
    ensures fs[i].name in Index(fs) && Index(fs)[fs[i].name] == fs[i]
  {
    if i < |fs| - 1 {
      IndexOfDistinct(fs[..|fs| - 1], i);
    }
  }

  // ---- Meaning ----

  /** What a symbol stands for: code outside the module, code cut off by the step bound, or a meaning. */
  datatype Target<D> = External(sym: string) | Cut | Internal(meaning: D)

  /** An arbitrary compositional semantics: of code, what its references resolve to, and what the globals it reads are. */
  type Semantics<!D> = (Function, seq<Target<D>>, seq<Target<D>>) -> D

  /** The initialisers by the name of their global. */
  function Inits(gs: seq<Global>): map<string, Function> {
    if gs == [] then map[]
    else
      var last := gs[|gs| - 1];
      Inits(gs[..|gs| - 1]) + if last.init.Some? then map[last.name := last.init.value] else map[]
  }

  /**
   The meaning of `sym` in a module under a semantics: a function means whatever `sem` makes of its code
   (its own name and the spelling of its direct callees hidden), of what each of its references resolves
   to, and of the globals it reads.  `n` bounds the depth to which calls and reads are followed;
   statements about meaning are made for every `n`.
   */
  ghost function Resolve<D>(sem: Semantics<D>, fs: seq<Function>, gs: seq<Global>, n: nat, sym: string): Target<D>
    decreases n, 0
  {
    if sym !in Index(fs) then External(sym)
    else if n == 0 then Cut
    else Internal(MeaningOf(sem, fs, gs, n - 1, Index(fs)[sym]))
  }

  /** What a global is: what its initialiser means. */
  ghost function Read<D>(sem: Semantics<D>, fs: seq<Function>, gs: seq<Global>, n: nat, x: string): Target<D>
    decreases n, 0
  {
    if x !in Inits(gs) then External(x)
    else if n == 0 then Cut
    else Internal(MeaningOf(sem, fs, gs, n - 1, Inits(gs)[x]))
  }

  ghost function MeaningOf<D>(sem: Semantics<D>, fs: seq<Function>, gs: seq<Global>, n: nat, f: Function): D
    decreases n, 1
  {
    var refs, seen := FunctionRefs(f), FunctionReads(f);
    sem(Skeleton(f), seq(|refs|, i requires 0 <= i < |refs| => Resolve(sem, fs, gs, n, refs[i].sym)),
                     seq(|seen|, i requires 0 <= i < |seen| => Read(sem, fs, gs, n, seen[i])))
  }

  // ---- Specifications of the three passes ----

  function WithoutMain(fs: seq<Function>): seq<Function> {
    if fs == [] then []
    else
      var last := fs[|fs| - 1];
      WithoutMain(fs[..|fs| - 1]) + if last.name == "main" then [] else [last]
  }

  /** Exported functions that get the package prefix. */
  predicate Ordinary(f: Function) {
    f.exported && f.name != "" && f.exportSymbol == "" && f.name != "main"
  }

  function Prefixed(pkg: string, name: string): string {
    pkg + "." + name
  }

  ghost function Renames(fs: seq<Function>, pkg: string): map<string, string> {
    var names := set f | f in fs && Ordinary(f) :: f.name;
    map s | s in names :: Prefixed(pkg, s)
  }

  function RenameAll(renames: map<string, string>, fs: seq<Function>): (out: seq<Function>)
    ensures |out| == |fs|
    ensures forall i :: 0 <= i < |fs| ==> out[i] == RenameFunction(renames, fs[i])
  {
    seq(|fs|, i requires 0 <= i < |fs| => RenameFunction(renames, fs[i]))
  }

  ghost function Qualified(fs: seq<Function>, pkg: string): seq<Function> {
    if pkg == "" then fs else RenameAll(Renames(fs, pkg), fs)
  }

  /** The symbol `t` stands somewhere in the code of the function named `s`. */
  ghost predicate Refers(fs: seq<Function>, s: string, t: string)
  {
    s in Index(fs) && Occurs(t, Index(fs)[s])
  }

  lemma {:induction false} RefersIff(fs: seq<Function>, s: string, t: string)
    ensures Refers(fs, s, t) <==> s in Index(fs) && t != "" && exists r :: r in FunctionRefs(Index(fs)[s]) && r.sym == t
  {
    if s in Index(fs) {
      OccursIff(t, Index(fs)[s]);
    }
  }

  /** What each defined function refers to. */
  ghost function References(fs: seq<Function>): map<string, set<string>> {
    map s | s in Index(fs) :: set r | r in FunctionRefs(Index(fs)[s]) :: r.sym
  }

  /** The defined symbols that references lead to from the required ones. */
  ghost function Kept(fs: seq<Function>, required: seq<string>): set<string> {
    Reachability.Closure(References(fs), set s | s in required)
  }

  ghost function Only(fs: seq<Function>, keep: set<string>): seq<Function> {
    if fs == [] then []
    else
      var last := fs[|fs| - 1];
      Only(fs[..|fs| - 1], keep) + if last.name in keep then [last] else []
  }

  ghost function Pruned(fs: seq<Function>, required: seq<string>): seq<Function> {
    if required == [] || Kept(fs, required) == {} then fs else Only(fs, Kept(fs, required))
  }

  /** The whole library-mode pipeline. */
  ghost function Library(fs: seq<Function>, pkg: string, required: seq<string>): seq<Function> {
    Pruned(Qualified(WithoutMain(fs), pkg), required)
  }

  // ---- Pruning keeps exactly the least closed set ----

  ghost predicate Closed(fs: seq<Function>, keep: set<string>) {
    forall s, t :: s in keep && Refers(fs, s, t) && t in Index(fs) ==> t in keep
  }

  ghost predicate Seeded(fs: seq<Function>, required: seq<string>, keep: set<string>) {
    forall s :: s in required && s in Index(fs) ==> s in keep
  }

  /** `Kept` is seeded, closed, and inside every other set that is. */
  lemma {:induction false} KeptIsLeast(fs: seq<Function>, required: seq<string>)
    ensures Seeded(fs, required, Kept(fs, required))
    ensures Closed(fs, Kept(fs, required))
    ensures forall keep :: Seeded(fs, required, keep) && Closed(fs, keep) ==> Kept(fs, required) <= keep
  {
    var succ, roots := References(fs), set s | s in required;
    Reachability.ClosureIsLeast(succ, roots);
    forall s, t | s in Kept(fs, required) && Refers(fs, s, t) && t in Index(fs)
      ensures t in Kept(fs, required)
    {
      KeptExtends(fs, required, s, t);
    }
    forall keep | Seeded(fs, required, keep) && Closed(fs, keep)
      ensures Kept(fs, required) <= keep
    {
      assert Reachability.Seeded(succ, roots, keep) && Reachability.Closed(succ, keep) by {
        ClosedAsRelation(fs, keep);
      }
    }
  }

  lemma {:induction false} ClosedAsRelation(fs: seq<Function>, keep: set<string>)
    requires Closed(fs, keep)
    ensures Reachability.Closed(References(fs), keep)
  {
    hide Occurs, FunctionRefs;
    forall s, t | s in keep && s in References(fs) && t in References(fs)[s] && t in References(fs)
      ensures t in keep
    {
      IndexHolds(fs, t);
      RefersIff(fs, s, t);
    }
  }

  lemma {:induction false} KeptStarts(fs: seq<Function>, required: seq<string>, s: string)
    requires s in required && s in Index(fs)
    ensures s in Kept(fs, required)
  {
    Reachability.ClosureStarts(References(fs), (set r | r in required), s);
  }

  lemma {:induction false} KeptExtends(fs: seq<Function>, required: seq<string>, s: string, t: string)
    requires s in Kept(fs, required) && Refers(fs, s, t) && t in Index(fs)
    ensures t in Kept(fs, required)
  {
    RefersIff(fs, s, t);
    Reachability.ClosureExtends(References(fs), (set r | r in required), s, t);
  }

  lemma {:induction false} OnlyIndex(fs: seq<Function>, keep: set<string>, s: string)
    ensures s in Index(Only(fs, keep)) <==> s in keep && s in Index(fs)
    ensures s in Index(Only(fs, keep)) ==> Index(Only(fs, keep))[s] == Index(fs)[s]
  {
    if fs != [] {
      var front, last, o := fs[..|fs| - 1], fs[|fs| - 1], Only(fs, keep);
      OnlyIndex(front, keep, s);
      if last.name in keep {
        assert o[..|o| - 1] == Only(front, keep) && o[|o| - 1] == last;
      } else {
        assert o == Only(front, keep);
      }
    }
  }

  /**
   Pruning preserves resolution: a reference made by a kept function is defined afterwards
   exactly when it was before, and when anything is kept nothing unreachable stays.
   */
  lemma {:induction false} PruneResolves(fs: seq<Function>, required: seq<string>)
    ensures var out := Pruned(fs, required); var keep := Kept(fs, required);
      && (forall s :: s in keep ==> s in Index(out) && Index(out)[s] == Index(fs)[s])
      && (forall s, t :: s in keep && Refers(fs, s, t) ==> (t in Index(out) <==> t in Index(fs)))
      && (required != [] && keep != {} ==> forall f :: f in out ==> f.name in keep && f in fs)
  {
    var keep := Kept(fs, required);
    KeptIsLeast(fs, required);
    forall s
      ensures s in Index(Only(fs, keep)) <==> s in keep && s in Index(fs)
      ensures s in keep ==> s in Index(fs) && Index(Only(fs, keep))[s] == Index(fs)[s]
    {
      OnlyIndex(fs, keep, s);
    }
    OnlyMembers(fs, keep);
  }

  lemma {:induction false} OnlyMembers(fs: seq<Function>, keep: set<string>)
    ensures forall f :: f in Only(fs, keep) <==> f in fs && f.name in keep
  {
    if fs != [] {
      OnlyMembers(fs[..|fs| - 1], keep);
      assert fs == fs[..|fs| - 1] + [fs[|fs| - 1]];
    }
  }

  /** Every reference of the function is in the set, or undefined in both modules. */
  ghost predicate RefsAgree(fs: seq<Function>, out: seq<Function>, keep: set<string>, f: Function) {
    forall r :: r in FunctionRefs(f) ==> r.sym in keep || (r.sym !in Index(fs) && r.sym !in Index(out))
  }

  /** Two modules that agree on a set of symbols closed under references, initialisers' included, give them one meaning. */
  ghost predicate Agree(fs: seq<Function>, out: seq<Function>, gs: seq<Global>, keep: set<string>) {
    && (forall t :: t in keep ==> t in Index(fs) && t in Index(out) && Index(out)[t] == Index(fs)[t] && RefsAgree(fs, out, keep, Index(fs)[t]))
    && (forall x :: x in Inits(gs) ==> RefsAgree(fs, out, keep, Inits(gs)[x]))
  }

  lemma {:induction false} AgreeOnMeaning<D>(sem: Semantics<D>, fs: seq<Function>, out: seq<Function>, gs: seq<Global>,
      keep: set<string>, n: nat, f: Function)
    requires Agree(fs, out, gs, keep) && RefsAgree(fs, out, keep, f)
    ensures MeaningOf(sem, out, gs, n, f) == MeaningOf(sem, fs, gs, n, f)
    decreases n
  {
    hide Index, FunctionRefs, FunctionReads, Inits, Skeleton;
    var refs, seen := FunctionRefs(f), FunctionReads(f);
    forall i | 0 <= i < |refs|
      ensures Resolve(sem, out, gs, n, refs[i].sym) == Resolve(sem, fs, gs, n, refs[i].sym)
    {
      assert refs[i] in refs;
      if refs[i].sym in keep && n > 0 {
        AgreeOnMeaning(sem, fs, out, gs, keep, n - 1, Index(fs)[refs[i].sym]);
      }
    }
    forall i | 0 <= i < |seen|
      ensures Read(sem, out, gs, n, seen[i]) == Read(sem, fs, gs, n, seen[i])
    {
      if seen[i] in Inits(gs) && n > 0 {
        AgreeOnMeaning(sem, fs, out, gs, keep, n - 1, Inits(gs)[seen[i]]);
      }
    }
    assert seq(|refs|, i requires 0 <= i < |refs| => Resolve(sem, out, gs, n, refs[i].sym))
        == seq(|refs|, i requires 0 <= i < |refs| => Resolve(sem, fs, gs, n, refs[i].sym));
    assert seq(|seen|, i requires 0 <= i < |seen| => Read(sem, out, gs, n, seen[i]))
        == seq(|seen|, i requires 0 <= i < |seen| => Read(sem, fs, gs, n, seen[i]));
  }

  /** The symbol is still there after pruning, if it was before. */
  ghost predicate Survives(fs: seq<Function>, required: seq<string>, s: string) {
    required == [] || Kept(fs, required) == {} || s in Kept(fs, required)
  }

  lemma {:induction false} SurvivesIff(fs: seq<Function>, required: seq<string>, s: string)
    requires s in Index(fs)
    ensures s in Index(Pruned(fs, required)) <==> Survives(fs, required, s)
    ensures s in Index(Pruned(fs, required)) ==> Index(Pruned(fs, required))[s] == Index(fs)[s]
  {
    OnlyIndex(fs, Kept(fs, required), s);
  }

  /** Nothing that an initialiser refers to is pruned away: the pruner does not look at initialisers. */
  ghost predicate InitsSurvive(fs: seq<Function>, gs: seq<Global>, required: seq<string>) {
    forall x, r :: x in Inits(gs) && r in FunctionRefs(Inits(gs)[x]) && r.sym in Index(fs) ==> Survives(fs, required, r.sym)
  }

  /** Under every semantics and to every depth, a kept symbol means what it meant before pruning. */
  lemma {:induction false} PruneKeepsMeaning<D>(sem: Semantics<D>, fs: seq<Function>, gs: seq<Global>,
      required: seq<string>, n: nat, s: string)
    requires s in Kept(fs, required) && InitsSurvive(fs, gs, required)
    ensures Resolve(sem, Pruned(fs, required), gs, n, s) == Resolve(sem, fs, gs, n, s)
  {
    hide MeaningOf, Index, FunctionRefs, Inits, Only;
    var out, keep := Pruned(fs, required), Kept(fs, required);
    PruneResolves(fs, required);
    KeptIsLeast(fs, required);
    KeptRequired(fs, required, s);
    PrunedAgree(fs, gs, required);
    if n > 0 {
      AgreeOnMeaning(sem, fs, out, gs, keep, n - 1, Index(fs)[s]);
    }
  }

  /** Something kept means something was required. */
  lemma {:induction false} KeptRequired(fs: seq<Function>, required: seq<string>, s: string)
    requires s in Kept(fs, required)
    ensures required != [] && s in Index(fs)
  {
    var roots := set r | r in required;
    var p :| Reachability.Chain(References(fs), roots, p) && p[|p| - 1] == s;
    assert p[0] in required;
  }

  lemma {:induction false} PrunedAgree(fs: seq<Function>, gs: seq<Global>, required: seq<string>)
    requires InitsSurvive(fs, gs, required) && required != [] && Kept(fs, required) != {}
    ensures Agree(fs, Pruned(fs, required), gs, Kept(fs, required))
  {
    hide Index, FunctionRefs, Inits, Kept;
    var out, keep := Pruned(fs, required), Kept(fs, required);
    PruneResolves(fs, required);
    KeptIsLeast(fs, required);
    forall t | t in keep
      ensures t in Index(fs)
    {
      KeptRequired(fs, required, t);
    }
    forall t, r | t in keep && r in FunctionRefs(Index(fs)[t])
      ensures r.sym in keep || (r.sym !in Index(fs) && r.sym !in Index(out))
    {
      if r.sym in Index(fs) {
        IndexHolds(fs, r.sym);
      } else {
        OnlyIndex(fs, keep, r.sym);
      }
      RefersIff(fs, t, r.sym);
    }
    forall x, r | x in Inits(gs) && r in FunctionRefs(Inits(gs)[x])
      ensures r.sym in keep || (r.sym !in Index(fs) && r.sym !in Index(out))
    {
      if r.sym !in Index(fs) {
        OnlyIndex(fs, keep, r.sym);
      }
    }
  }

  /** Only the set of required symbols matters, not their order or multiplicity. */
  lemma {:induction false} PruneIgnoresOrder(fs: seq<Function>, r1: seq<string>, r2: seq<string>)
    requires forall s :: s in r1 <==> s in r2
    ensures Pruned(fs, r1) == Pruned(fs, r2)
  {
    assert (set s | s in r1) == (set s | s in r2);
    assert Kept(fs, r1) == Kept(fs, r2);
    assert r1 != [] ==> r1[0] in r1;
    assert r2 != [] ==> r2[0] in r2;
  }

  // ---- Qualifying exported symbols ----

  /** No function that keeps its name already bears a qualified name. */
  ghost predicate NoClash(fs: seq<Function>, pkg: string) {
    forall f :: f in fs && f.name !in Renames(fs, pkg) ==> f.name !in Renames(fs, pkg).Values
  }

  lemma {:induction false} RenamesFacts(fs: seq<Function>, pkg: string)
    ensures var ren := Renames(fs, pkg);
      && "" !in ren && "main" !in ren && "" !in ren.Values && "main" !in ren.Values
      && (forall s :: s in ren <==> exists f :: f in fs && Ordinary(f) && f.name == s)
      && (forall s :: s in ren ==> ren[s] == Prefixed(pkg, s))
      && (forall s, t :: s in ren && t in ren && ren[s] == ren[t] ==> s == t)
  {
    var ren := Renames(fs, pkg);
    forall s, t | s in ren && t in ren && ren[s] == ren[t]
      ensures s == t
    {
      assert Prefixed(pkg, s)[|pkg| + 1..] == s;
      assert Prefixed(pkg, t)[|pkg| + 1..] == t;
    }
    forall s | s in ren
      ensures ren[s] != "" && ren[s] != "main"
    {
      assert ren[s][|pkg|] == '.';
      assert forall i :: 0 <= i < 4 ==> "main"[i] != '.';
    }
  }

  lemma {:induction false} OrdinaryAt(fs: seq<Function>, pkg: string, s: string) returns (i: nat)
    requires s in Renames(fs, pkg)
    ensures i < |fs| && Ordinary(fs[i]) && fs[i].name == s && Renames(fs, pkg)[s] == Prefixed(pkg, s)
  {
    var f :| f in fs && Ordinary(f) && f.name == s;
    i :| 0 <= i < |fs| && fs[i] == f;
  }

  /** Function names stay distinct exactly when there is no clash. */
  lemma {:induction false} QualifyKeepsDistinct(fs: seq<Function>, pkg: string)
    requires DistinctNames(fs) && pkg != ""
    ensures DistinctNames(Qualified(fs, pkg)) <==> NoClash(fs, pkg)
  {
    var ren, q := Renames(fs, pkg), Qualified(fs, pkg);
    RenamesFacts(fs, pkg);
    if NoClash(fs, pkg) {
      forall i, j | 0 <= i < j < |q|
        ensures q[i].name != q[j].name
      {
        assert fs[i] in fs && fs[j] in fs;
      }
    } else {
      var f :| f in fs && f.name !in ren && f.name in ren.Values;
      var s :| s in ren && ren[s] == f.name;
      var j := OrdinaryAt(fs, pkg, s);
      var i :| 0 <= i < |fs| && fs[i] == f;
      assert q[i].name == q[j].name && i != j;
    }
  }

  /** With distinct names, what is renamed is exactly what resolves to an ordinary export. */
  lemma {:induction false} RenamesOrdinary(fs: seq<Function>, pkg: string, s: string)
    requires DistinctNames(fs)
    ensures s in Renames(fs, pkg) <==> s in Index(fs) && Ordinary(Index(fs)[s])
  {
    RenamesFacts(fs, pkg);
    IndexHolds(fs, s);
    if s in Renames(fs, pkg) {
      var j := OrdinaryAt(fs, pkg, s);
      IndexOfDistinct(fs, j);
    }
  }

  /**
   Direct callees keep resolving: a symbol that named `f` is patched to one that names the
   renamed `f`, and what was not a defined ordinary export is left as it is.
   */
  lemma {:induction false} QualifyResolves(fs: seq<Function>, pkg: string, s: string)
    requires DistinctNames(fs) && pkg != "" && NoClash(fs, pkg)
    ensures var ren, q := Renames(fs, pkg), Qualified(fs, pkg); var s' := Renamed(ren, s);
      && (s in ren <==> s in Index(fs) && Ordinary(Index(fs)[s]))
      && (s in Index(fs) ==> s' in Index(q) && Index(q)[s'] == RenameFunction(ren, Index(fs)[s]))
      && (s !in Index(fs) ==> s' == s && (s in Index(q) <==> s in ren.Values))
  {
    RenamesOrdinary(fs, pkg, s);
    if s in Index(fs) {
      QualifyResolvesDefined(fs, pkg, s);
    } else {
      QualifyResolvesOutside(fs, pkg, s);
    }
  }

  lemma {:induction false} QualifyResolvesDefined(fs: seq<Function>, pkg: string, s: string)
    requires DistinctNames(fs) && pkg != "" && NoClash(fs, pkg) && s in Index(fs)
    ensures var ren, q := Renames(fs, pkg), Qualified(fs, pkg); var s' := Renamed(ren, s);
      s' in Index(q) && Index(q)[s'] == RenameFunction(ren, Index(fs)[s])
  {
    var ren, q := Renames(fs, pkg), Qualified(fs, pkg);
    RenamesFacts(fs, pkg);
    IndexHolds(fs, s);
    QualifyKeepsDistinct(fs, pkg);
    var i :| 0 <= i < |fs| && fs[i] == Index(fs)[s];
    assert q[i].name == Renamed(ren, s);
    IndexOfDistinct(q, i);
  }

  lemma {:induction false} QualifyResolvesOutside(fs: seq<Function>, pkg: string, s: string)
    requires DistinctNames(fs) && pkg != "" && NoClash(fs, pkg) && s !in Index(fs)
    ensures s in Index(Qualified(fs, pkg)) <==> s in Renames(fs, pkg).Values
  {
    var ren, q := Renames(fs, pkg), Qualified(fs, pkg);
    IndexHolds(q, s);
    if s in ren.Values {
      var t :| t in ren && ren[t] == s;
      var j := OrdinaryAt(fs, pkg, t);
      assert q[j].name == s && q[j] in q;
      assert s[|pkg|] == '.';
    } else if s in Index(q) {
      var k :| 0 <= k < |q| && q[k].name == s;
      assert fs[k] in fs && fs[k].name == s;
      IndexOfDistinct(fs, k);
    }
  }

  /**
   Function constants are not patched, so one that named a defined `f` still does exactly
   when `f` is not renamed.
   */
  lemma {:induction false} ConstantResolvesIff(fs: seq<Function>, pkg: string, s: string)
    requires DistinctNames(fs) && pkg != "" && NoClash(fs, pkg) && s in Index(fs)
    ensures var ren, q := Renames(fs, pkg), Qualified(fs, pkg);
      s in Index(q) && Index(q)[s] == RenameFunction(ren, Index(fs)[s]) <==> !Ordinary(Index(fs)[s])
  {
    var q := Qualified(fs, pkg);
    QualifyResolves(fs, pkg, s);
    IndexHolds(q, s);
    IndexHolds(fs, s);
    RenamesFacts(fs, pkg);
    if Ordinary(Index(fs)[s]) {
      assert |Prefixed(pkg, s)| > |s|;
    }
  }

  /** An exported callback and a function that passes it on as a constant. */
  const CALLBACK := Function("f", [], true, "")
  const PASSES_CALLBACK :=
    Function("g", [Block([Call(None, FnRef("h"), [ConstOp(FnConst("f"))])], OtherTerm("return"))], false, "")

  lemma {:induction false} PassesCallbackRefs()
    ensures FunctionRefs(PASSES_CALLBACK) == [Direct("h"), Constant("f")]
  {
  }

  lemma {:induction false} PassesCallbackFits()
    ensures var fs := [CALLBACK, PASSES_CALLBACK];
      && DistinctNames(fs) && NoClash(fs, "p") && Renames(fs, "p") == map["f" := "p.f"]
      && fs[0].name in Index(fs) && Index(fs)["g"] == PASSES_CALLBACK && "f" in Index(fs) && "g" in Index(fs)
  {
    var fs := [CALLBACK, PASSES_CALLBACK];
    assert fs[0] == CALLBACK && fs[1] == PASSES_CALLBACK;
    assert DistinctNames(fs);
    IndexOfDistinct(fs, 0);
    IndexOfDistinct(fs, 1);
    RenamesFacts(fs, "p");
    assert Renames(fs, "p").Keys == {"f"};
    assert Renames(fs, "p")["f"] == "p.f";
  }

  /** A two-function module on which renaming leaves a function constant dangling. */
  lemma {:induction false} ConstantLosesTarget()
    ensures var fs := [CALLBACK, PASSES_CALLBACK]; var q := Qualified(fs, "p");
      && DistinctNames(fs) && NoClash(fs, "p")
      && Refers(fs, "g", "f") && "f" in Index(fs)
      && Refers(q, "g", "f") && "f" !in Index(q)
  {
    hide Index, Renames, NoClash, DistinctNames, FunctionRefs;
    var fs := [CALLBACK, PASSES_CALLBACK];
    var ren, q := Renames(fs, "p"), Qualified(fs, "p");
    PassesCallbackFits();
    PassesCallbackRefs();
    assert FunctionRefs(PASSES_CALLBACK)[1] == Constant("f");
    QualifyResolvesDefined(fs, "p", "g");
    ConstantKept(ren, PASSES_CALLBACK, "f");
    ConstantResolvesIff(fs, "p", "f");
    IndexHolds(q, "f");
    assert q[0].name == "p.f" && q[1].name == "g";
    RefersIff(fs, "g", "f");
    RefersIff(q, "g", "f");
  }

  /** Renaming leaves function constants as they are. */
  lemma {:induction false} ConstantKept(ren: map<string, string>, f: Function, s: string)
    requires "" !in ren.Values && "" !in ren && Constant(s) in FunctionRefs(f)
    ensures Constant(s) in FunctionRefs(RenameFunction(ren, f))
  {
    RenameBlocksRefs(ren, f.blocks);
    var i :| 0 <= i < |FunctionRefs(f)| && FunctionRefs(f)[i] == Constant(s);
    assert FunctionRefs(RenameFunction(ren, f))[i] == Constant(s);
  }

  /** No constant names a renamed function and no outside reference is spelled like a qualified name. */
  ghost predicate Patchable(fs: seq<Function>, pkg: string) {
    forall f, r :: f in fs && r in FunctionRefs(f) ==>
      && (r.Constant? ==> r.sym !in Renames(fs, pkg))
      && (r.sym !in Index(fs) ==> r.sym !in Renames(fs, pkg).Values)
  }

  /** Each reference of a patched function is the patched spelling of the original one. */
  lemma {:induction false} PatchedRefs(fs: seq<Function>, pkg: string, f: Function)
    requires DistinctNames(fs) && pkg != "" && NoClash(fs, pkg) && Patchable(fs, pkg) && f in fs
    ensures var ren, q := Renames(fs, pkg), Qualified(fs, pkg);
      var refs, refs' := FunctionRefs(f), FunctionRefs(RenameFunction(ren, f));
      && |refs'| == |refs|
      && (forall i :: 0 <= i < |refs| ==> refs'[i].sym == Renamed(ren, refs[i].sym))
      && (forall i :: 0 <= i < |refs| && refs[i].sym !in Index(fs) ==>
            refs'[i].sym == refs[i].sym && refs[i].sym !in Index(q))
  {
    var ren := Renames(fs, pkg);
    RenamesFacts(fs, pkg);
    RenameBlocksRefs(ren, f.blocks);
    var refs := FunctionRefs(f);
    forall i | 0 <= i < |refs|
      ensures RenameRef(ren, refs[i]).sym == Renamed(ren, refs[i].sym)
      ensures refs[i].sym !in Index(fs) ==> refs[i].sym !in Index(Qualified(fs, pkg)) && refs[i].sym !in ren
    {
      assert refs[i] in refs;
      QualifyResolves(fs, pkg, refs[i].sym);
    }
  }

  /** The patch loop passes over initialisers, so none may call what is renamed, or a name that a renamed function takes. */
  ghost predicate InitsUntouched(fs: seq<Function>, gs: seq<Global>, pkg: string) {
    forall x, r :: x in Inits(gs) && r in FunctionRefs(Inits(gs)[x]) ==>
      r.sym !in Renames(fs, pkg) && (r.sym !in Index(fs) ==> r.sym !in Renames(fs, pkg).Values)
  }

  /** The references of `g` in the qualified module stand for those of `f` in the original one. */
  ghost predicate RefsCorrespond(fs: seq<Function>, pkg: string, f: Function, g: Function) {
    var refs, refs' := FunctionRefs(f), FunctionRefs(g);
    && |refs'| == |refs| && FunctionReads(g) == FunctionReads(f) && Skeleton(g) == Skeleton(f)
    && (forall i :: 0 <= i < |refs| ==>
          if refs[i].sym in Index(fs) then refs'[i].sym == Renamed(Renames(fs, pkg), refs[i].sym)
          else refs'[i].sym == refs[i].sym && refs[i].sym !in Index(Qualified(fs, pkg)))
  }

  lemma {:induction false} PatchedCorresponds(fs: seq<Function>, pkg: string, f: Function)
    requires DistinctNames(fs) && pkg != "" && NoClash(fs, pkg) && Patchable(fs, pkg) && f in fs
    ensures RefsCorrespond(fs, pkg, f, RenameFunction(Renames(fs, pkg), f))
  {
    hide FunctionRefs, Index, Renames, Qualified;
    var ren := Renames(fs, pkg);
    PatchedRefs(fs, pkg, f);
    EraseRenamedBlocks(ren, f.blocks);
    RenamedBlocksReads(ren, f.blocks);
  }

  lemma {:induction false} InitCorresponds(fs: seq<Function>, gs: seq<Global>, pkg: string, x: string)
    requires DistinctNames(fs) && pkg != "" && NoClash(fs, pkg) && InitsUntouched(fs, gs, pkg) && x in Inits(gs)
    ensures RefsCorrespond(fs, pkg, Inits(gs)[x], Inits(gs)[x])
  {
    hide FunctionRefs, FunctionReads, Skeleton, Inits, Index, Qualified;
    var refs := FunctionRefs(Inits(gs)[x]);
    forall i | 0 <= i < |refs|
      ensures refs[i].sym !in Renames(fs, pkg)
      ensures refs[i].sym !in Index(fs) ==> refs[i].sym !in Index(Qualified(fs, pkg))
    {
      assert refs[i] in refs;
      QualifyResolves(fs, pkg, refs[i].sym);
    }
  }

  /** Qualifying preserves what code means, its references read at their new spelling. */
  lemma {:induction false} QualifyKeepsCode<D>(sem: Semantics<D>, fs: seq<Function>, gs: seq<Global>, pkg: string, n: nat, f: Function, g: Function)
    requires DistinctNames(fs) && pkg != "" && NoClash(fs, pkg) && Patchable(fs, pkg) && InitsUntouched(fs, gs, pkg)
    requires RefsCorrespond(fs, pkg, f, g)
    ensures MeaningOf(sem, Qualified(fs, pkg), gs, n, g) == MeaningOf(sem, fs, gs, n, f)
    decreases n
  {
    hide Index, FunctionRefs, FunctionReads, Renames, Renamed, DistinctNames, NoClash, Patchable, InitsUntouched, Inits, Skeleton, Qualified;
    var ren, q := Renames(fs, pkg), Qualified(fs, pkg);
    var refs, refs', seen := FunctionRefs(f), FunctionRefs(g), FunctionReads(f);
    forall i | 0 <= i < |refs|
      ensures Resolve(sem, q, gs, n, refs'[i].sym) == Resolve(sem, fs, gs, n, refs[i].sym)
    {
      if refs[i].sym in Index(fs) {
        QualifyResolvesDefined(fs, pkg, refs[i].sym);
        IndexHolds(fs, refs[i].sym);
        if n > 0 {
          var h := Index(fs)[refs[i].sym];
          PatchedCorresponds(fs, pkg, h);
          QualifyKeepsCode(sem, fs, gs, pkg, n - 1, h, RenameFunction(ren, h));
        }
      }
    }
    forall i | 0 <= i < |seen|
      ensures Read(sem, q, gs, n, seen[i]) == Read(sem, fs, gs, n, seen[i])
    {
      if seen[i] in Inits(gs) && n > 0 {
        InitCorresponds(fs, gs, pkg, seen[i]);
        QualifyKeepsCode(sem, fs, gs, pkg, n - 1, Inits(gs)[seen[i]], Inits(gs)[seen[i]]);
      }
    }
    assert seq(|refs'|, i requires 0 <= i < |refs'| => Resolve(sem, q, gs, n, refs'[i].sym))
        == seq(|refs|, i requires 0 <= i < |refs| => Resolve(sem, fs, gs, n, refs[i].sym));
    assert seq(|seen|, i requires 0 <= i < |seen| => Read(sem, q, gs, n, seen[i]))
        == seq(|seen|, i requires 0 <= i < |seen| => Read(sem, fs, gs, n, seen[i]));
  }

  /** Qualifying preserves the meaning of every defined symbol, at its new spelling. */
  lemma {:induction false} QualifyKeepsMeaning<D>(sem: Semantics<D>, fs: seq<Function>, gs: seq<Global>, pkg: string, n: nat, s: string)
    requires DistinctNames(fs) && pkg != "" && NoClash(fs, pkg) && Patchable(fs, pkg) && InitsUntouched(fs, gs, pkg)
    requires s in Index(fs)
    ensures Resolve(sem, Qualified(fs, pkg), gs, n, Renamed(Renames(fs, pkg), s)) == Resolve(sem, fs, gs, n, s)
  {
    hide Index, MeaningOf, Renames, Renamed, DistinctNames, NoClash, Patchable, InitsUntouched, Qualified;
    QualifyResolvesDefined(fs, pkg, s);
    IndexHolds(fs, s);
    if n > 0 {
      var f := Index(fs)[s];
      PatchedCorresponds(fs, pkg, f);
      QualifyKeepsCode(sem, fs, gs, pkg, n - 1, f, RenameFunction(Renames(fs, pkg), f));
    }
  }

  // ---- The composed pipeline ----

  lemma {:induction false} WithoutMainMembers(fs: seq<Function>)
    ensures forall f :: f in WithoutMain(fs) <==> f in fs && f.name != "main"
    ensures DistinctNames(fs) ==> DistinctNames(WithoutMain(fs))
  {
    if fs != [] {
      var front, last := fs[..|fs| - 1], fs[|fs| - 1];
      WithoutMainMembers(front);
      assert fs == front + [last];
      var w := WithoutMain(front);
      if DistinctNames(fs) {
        assert forall j :: 0 <= j < |w| ==> w[j] in w;
      }
    }
  }

  /** No function named `main` survives, whatever the package name and the requirements. */
  lemma {:induction false} LibraryHasNoMain(fs: seq<Function>, pkg: string, required: seq<string>)
    ensures forall f :: f in Library(fs, pkg, required) ==> f.name != "main"
  {
    var w := WithoutMain(fs);
    var q := Qualified(w, pkg);
    WithoutMainMembers(fs);
    RenamesFacts(w, pkg);
    forall f | f in q
      ensures f.name != "main"
    {
      var i :| 0 <= i < |q| && q[i] == f;
      assert w[i] in w;
    }
    PruneResolves(q, required);
  }

  /**
   Every required `pkg.f` whose `f` is an ordinary exported function of the dependency is
   defined in the library, as the renamed `f`.
   */
  lemma {:induction false} LibraryDefines(fs: seq<Function>, pkg: string, required: seq<string>, f: Function)
    requires DistinctNames(fs) && pkg != "" && NoClash(WithoutMain(fs), pkg)
    requires f in fs && Ordinary(f) && Prefixed(pkg, f.name) in required
    ensures var ren, lib := Renames(WithoutMain(fs), pkg), Library(fs, pkg, required);
      && Prefixed(pkg, f.name) in Index(lib)
      && Index(lib)[Prefixed(pkg, f.name)] == RenameFunction(ren, f)
  {
    var w := WithoutMain(fs);
    WithoutMainMembers(fs);
    RenamesFacts(w, pkg);
    assert f in w;
    var i :| 0 <= i < |w| && w[i] == f;
    IndexOfDistinct(w, i);
    QualifyResolves(w, pkg, f.name);
    var q := Qualified(w, pkg);
    KeptIsLeast(q, required);
    PruneResolves(q, required);
  }

  /** ... and it means there what `f` meant in the dependency without its `main`. */
  lemma {:induction false} LibraryKeepsMeaning<D>(sem: Semantics<D>, fs: seq<Function>, gs: seq<Global>, pkg: string,
      required: seq<string>, f: Function, n: nat)
    requires DistinctNames(fs) && pkg != "" && NoClash(WithoutMain(fs), pkg) && Patchable(WithoutMain(fs), pkg)
    requires InitsUntouched(WithoutMain(fs), gs, pkg) && InitsSurvive(Qualified(WithoutMain(fs), pkg), gs, required)
    requires f in fs && Ordinary(f) && Prefixed(pkg, f.name) in required
    ensures Resolve(sem, Library(fs, pkg, required), gs, n, Prefixed(pkg, f.name)) == Resolve(sem, WithoutMain(fs), gs, n, f.name)
  {
    hide Resolve, InitsUntouched, InitsSurvive;
    var w := WithoutMain(fs);
    var q := Qualified(w, pkg);
    LibraryDefines(fs, pkg, required, f);
    WithoutMainMembers(fs);
    RenamesFacts(w, pkg);
    assert f in w;
    IndexHolds(w, f.name);
    QualifyResolves(w, pkg, f.name);
    QualifyKeepsMeaning(sem, w, gs, pkg, n, f.name);
    KeptIsLeast(q, required);
    PruneKeepsMeaning(sem, q, gs, required, n, Prefixed(pkg, f.name));
  }

  /** Exported functions but `main` get the package's prefix, unless they ask for a symbol of their own; no other name changes. */
  lemma {:induction false} NamesAfter(fs: seq<Function>, pkg: string, i: nat)
    requires DistinctNames(fs) && pkg != "" && i < |fs|
    ensures |Qualified(fs, pkg)| == |fs|
    ensures Qualified(fs, pkg)[i].name ==
      if fs[i].exported && fs[i].exportSymbol == "" && fs[i].name != "" && fs[i].name != "main" then pkg + "." + fs[i].name else fs[i].name
  {
    if fs[i].name in Renames(fs, pkg) {
      var f :| f in fs && Ordinary(f) && f.name == fs[i].name;
      var j :| 0 <= j < |fs| && fs[j] == f;
    } else {
      assert fs[i] in fs;
    }
  }

  // ---- Initialisers of globals, which no pass looks at ----

  /** A name an initialiser uses still stands for the function it stood for. */
  ghost predicate StillResolves(fs: seq<Function>, pkg: string, required: seq<string>, s: string)
    requires s in Index(WithoutMain(fs))
  {
    var w, lib := WithoutMain(fs), Library(fs, pkg, required);
    s in Index(lib) && Index(lib)[s] == RenameFunction(Renames(w, pkg), Index(w)[s])
  }

  /** A function that an initialiser refers to is still there under that name exactly when it is not renamed and survives pruning. */
  lemma {:induction false} InitResolvesIff(fs: seq<Function>, pkg: string, required: seq<string>, s: string)
    requires DistinctNames(fs) && pkg != "" && NoClash(WithoutMain(fs), pkg) && s in Index(WithoutMain(fs))
    ensures var w := WithoutMain(fs);
      StillResolves(fs, pkg, required, s) <==> !Ordinary(Index(w)[s]) && Survives(Qualified(w, pkg), required, s)
  {
    hide Survives, Pruned, Index, Ordinary;
    var w := WithoutMain(fs);
    var q := Qualified(w, pkg);
    WithoutMainMembers(fs);
    ConstantResolvesIff(w, pkg, s);
    if s in Index(q) {
      SurvivesIff(q, required, s);
    } else {
      NotPrunedIn(q, required, s);
    }
  }

  lemma {:induction false} NotPrunedIn(fs: seq<Function>, required: seq<string>, s: string)
    requires s !in Index(fs)
    ensures s !in Index(Pruned(fs, required))
  {
    OnlyIndex(fs, Kept(fs, required), s);
  }

  /** A global whose initialiser calls an exported function of its package loses it to the renaming. */
  lemma {:induction false} InitialiserLosesCallee()
    ensures var fs := [CALLBACK, PASSES_CALLBACK];
      var init := Function("_init_x", [Block([Call(None, FnRef("f"), [])], OtherTerm("return"))], false, "");
      && FunctionRefs(init) == [Direct("f")] && "f" in Index(fs) && WithoutMain(fs) == fs
      && !InitsUntouched(fs, [Global("x", Some(init))], "p") && "f" !in Index(Library(fs, "p", []))
  {
    hide Index, Renames, NoClash, DistinctNames, WithoutMain;
    var fs := [CALLBACK, PASSES_CALLBACK];
    var init := Function("_init_x", [Block([Call(None, FnRef("f"), [])], OtherTerm("return"))], false, "");
    InitRefs();
    PairWithoutMain();
    PassesCallbackFits();
    ConstantLosesTarget();
    var gs := [Global("x", Some(init))];
    assert Inits(gs) == Inits(gs[..0]) + map["x" := init];
    assert Direct("f") in FunctionRefs(Inits(gs)["x"]);
  }

  lemma {:induction false} InitRefs()
    ensures FunctionRefs(Function("_init_x", [Block([Call(None, FnRef("f"), [])], OtherTerm("return"))], false, "")) == [Direct("f")]
  {
    var b := Block([Call(None, FnRef("f"), [])], OtherTerm("return"));
    assert InstrRefs(b.instrs[0]) == [Direct("f")];
    assert InstrsRefs(b.instrs) == InstrRefs(b.instrs[0]) + InstrsRefs(b.instrs[1..]);
    assert BlocksRefs([b]) == InstrsRefs(b.instrs) + TermRefs(b.term) + BlocksRefs([b][1..]);
  }

  lemma {:induction false} PairWithoutMain()
    ensures WithoutMain([CALLBACK, PASSES_CALLBACK]) == [CALLBACK, PASSES_CALLBACK]
  {
    var fs := [CALLBACK, PASSES_CALLBACK];
    assert fs[..1] == [CALLBACK] && |fs[..1][..0]| == 0;
    assert WithoutMain([CALLBACK]) == WithoutMain([CALLBACK][..0]) + [CALLBACK];
  }

  // ---- The passes themselves ----

  lemma {:induction false} RenameNothingInstrs(instrs: seq<Instr>)
    ensures RenameInstrs(map[], instrs) == instrs
  {
    if instrs != [] { RenameNothingInstrs(instrs[1..]); }
  }

  lemma {:induction false} RenameNothing(bs: seq<Block>)
    ensures RenameBlocks(map[], bs) == bs
  {
    if bs != [] {
      RenameNothingInstrs(bs[0].instrs);
      RenameNothing(bs[1..]);
    }
  }

  method BuildIndex(fs: seq<Function>) returns (byName: map<string, Function>)
    ensures byName == Index(fs)
  {
    byName := map[];
    for i := 0 to |fs|
      invariant byName == Index(fs[..i])
    {
      assert fs[..i + 1][..i] == fs[..i];
      if fs[i].name != "" {
        byName := byName[fs[i].name := fs[i]];
      }
    }
    assert fs[..|fs|] == fs;
  }

  /** What the reachability loops know about the symbols marked so far. */
  ghost predicate Marked(fs: seq<Function>, required: seq<string>, keep: set<string>, queue: seq<string>) {
    && (forall s :: s in queue ==> s in keep)
    && (forall s :: s in keep ==> s in Index(fs) && s in Kept(fs, required))
  }

  /** Every marked symbol outside `pending` has had its references marked. */
  ghost predicate Scanned(fs: seq<Function>, keep: set<string>, pending: seq<string>) {
    forall s, t :: s in keep && s !in pending && Refers(fs, s, t) && t in Index(fs) ==> t in keep
  }

  method MarkRequired(fs: seq<Function>, byName: map<string, Function>, required: seq<string>)
      returns (keep: set<string>, queue: seq<string>)
    requires byName == Index(fs)
    ensures Marked(fs, required, keep, queue) && Seeded(fs, required, keep)
    ensures forall s :: s in keep ==> s in queue
  {
    keep, queue := {}, [];
    for i := 0 to |required|
      invariant Marked(fs, required, keep, queue)
      invariant forall s :: s in keep ==> s in queue
      invariant forall k :: 0 <= k < i && required[k] in byName ==> required[k] in keep
    {
      var sym := required[i];
      if sym in byName && sym !in keep {
        KeptStarts(fs, required, sym);
        keep := keep + {sym};
        queue := queue + [sym];
      }
    }
  }

  /** Visits the references of one function, marking and queueing the new defined ones. */
  method MarkRefs(fs: seq<Function>, byName: map<string, Function>, ghost required: seq<string>,
      sym: string, keep0: set<string>, queue0: seq<string>)
      returns (keep: set<string>, queue: seq<string>)
    requires byName == Index(fs) && sym in keep0 && Marked(fs, required, keep0, queue0)
    requires Scanned(fs, keep0, [sym] + queue0)
    ensures Marked(fs, required, keep, queue) && keep0 <= keep
    ensures Scanned(fs, keep, queue)
    ensures keep == keep0 ==> queue == queue0
  {
    hide Index, FunctionRefs, Refers, Kept;
    keep, queue := keep0, queue0;
    var refs := FunctionRefs(byName[sym]);
    for i := 0 to |refs|
      invariant keep0 <= keep && (keep == keep0 ==> queue == queue0)
      invariant Marked(fs, required, keep, queue)
      invariant forall k :: 0 <= k < i && refs[k].sym in byName ==> refs[k].sym in keep
      invariant queue0 <= queue && forall s :: s in keep ==> s in keep0 || s in queue
    {
      var ref := refs[i].sym;
      if ref in byName && ref !in keep {
        assert refs[i] in refs;
        IndexHolds(fs, ref);
        RefersIff(fs, sym, ref);
        KeptExtends(fs, required, sym, ref);
        keep := keep + {ref};
        queue := queue + [ref];
      }
    }
    forall s, t | s in keep && s !in queue && Refers(fs, s, t) && t in Index(fs)
      ensures t in keep
    {
      if s == sym {
        RefersIff(fs, sym, t);
        var r :| r in refs && r.sym == t;
      } else {
        assert s !in [sym] + queue0;
      }
    }
  }

  /** Worklist reachability from the required symbols. */
  method Reachable(fs: seq<Function>, required: seq<string>) returns (keep: set<string>)
    ensures keep == Kept(fs, required)
  {
    var byName := BuildIndex(fs);
    var queue;
    keep, queue := MarkRequired(fs, byName, required);
    while queue != []
      invariant Marked(fs, required, keep, queue)
      invariant Seeded(fs, required, keep)
      invariant Scanned(fs, keep, queue)
      decreases byName.Keys - keep, |queue|
    {
      var sym := queue[0];
      ghost var before := keep;
      assert queue == [sym] + queue[1..];
      keep, queue := MarkRefs(fs, byName, required, sym, keep, queue[1..]);
      if keep != before {
        assert exists s :: s in keep && s !in before;
      }
    }
    assert Closed(fs, keep);
    KeptIsLeast(fs, required);
  }

  method FilterKept(fs: seq<Function>, keep: set<string>) returns (filtered: seq<Function>)
    ensures filtered == Only(fs, keep)
  {
    filtered := [];
    for i := 0 to |fs|
      invariant filtered == Only(fs[..i], keep)
    {
      assert fs[..i + 1][..i] == fs[..i];
      if fs[i].name in keep {
        filtered := filtered + [fs[i]];
      }
    }
    assert fs[..|fs|] == fs;
  }

  method CollectRenames(fs: seq<Function>, pkg: string) returns (renames: map<string, string>)
    ensures renames == Renames(fs, pkg)
  {
    renames := map[];
    for i := 0 to |fs|
      invariant renames == Renames(fs[..i], pkg)
    {
      assert fs[..i + 1] == fs[..i] + [fs[i]];
      if Ordinary(fs[i]) {
        renames := renames[fs[i].name := Prefixed(pkg, fs[i].name)];
      }
    }
    assert fs[..|fs|] == fs;
  }

  /** The module being built; no pass touches its globals. */
  class Entry {
    var functions: seq<Function>
    var globals: seq<Global>

    constructor (fs: seq<Function>, gs: seq<Global>)
      ensures functions == fs && globals == gs
    {
      functions, globals := fs, gs;
    }

    method StripMain()
      modifies this`functions
      ensures functions == WithoutMain(old(functions))
    {
      var filtered: seq<Function> := [];
      for i := 0 to |functions|
        invariant functions == old(functions)
        invariant filtered == WithoutMain(functions[..i])
      {
        assert functions[..i + 1][..i] == functions[..i];
        if functions[i].name != "main" {
          filtered := filtered + [functions[i]];
        }
      }
      assert functions[..|functions|] == functions;
      functions := filtered;
    }

    method QualifyExported(pkg: string)
      modifies this`functions
      ensures functions == Qualified(old(functions), pkg)
    {
      if pkg == "" {
        return;
      }
      var renames := CollectRenames(functions, pkg);
      if renames == map[] {
        forall i | 0 <= i < |functions|
          ensures RenameFunction(map[], functions[i]) == functions[i]
        {
          RenameNothing(functions[i].blocks);
        }
        assert RenameAll(renames, functions) == functions;
        return;
      }
      for i := 0 to |functions|
        invariant |functions| == |old(functions)|
        invariant forall k :: 0 <= k < i ==> functions[k] == RenameFunction(renames, old(functions)[k])
        invariant forall k :: i <= k < |functions| ==> functions[k] == old(functions)[k]
      {
        functions := functions[i := RenameFunction(renames, functions[i])];
      }
      assert functions == RenameAll(renames, old(functions));
    }

    method Prune(required: seq<string>)
      modifies this`functions
      ensures functions == Pruned(old(functions), required)
    {
      if |required| == 0 {
        return;
      }
      var keep := Reachable(functions, required);
      if keep == {} {
        return;
      }
      functions := FilterKept(functions, keep);
    }

    /** The library-mode branch of the driver. */
    method BuildLibrary(pkg: string, required: seq<string>)
      modifies this`functions
      ensures functions == Library(old(functions), pkg, required)
    {
      StripMain();
      if pkg != "" {
        QualifyExported(pkg);
      }
      Prune(required);
    }
  }
}
