/**
 The consumer's side of a cross-package link: which symbols its MIR needs from one
 dependency, and whether the dependency's library object then provides them.
 */
module CrossPkg {

  import opened Mir
  import opened LibraryMode
  import opened Occurrence
  import opened StableSort
  import opened Text

  /** The dotted path first, then the package name; blanks and repeats are dropped. */
  function Prefixes(name: string, dotPath: string): seq<string> {
    var d, n := TrimSpace(dotPath), TrimSpace(name);
    (if d == "" then [] else [d + "."]) + (if n == "" || n == d then [] else [n + "."])
  }

  predicate Wanted(prefixes: seq<string>, sym: string) {
    exists p :: p in prefixes && p <= sym && |sym| > |p|
  }

  /** Every symbol mentioned by the consumer's functions and global initialisers. */
  ghost function Symbols(fns: seq<Function>): set<string> {
    set f, r | f in fns && r in FunctionRefs(f) :: r.sym
  }

  /** Something follows one of the two names and a dot. */
  lemma {:induction false} WantedIff(name: string, dotPath: string, s: string)
    ensures Wanted(Prefixes(name, dotPath), s) <==>
      exists p, x :: (p == TrimSpace(dotPath) || p == TrimSpace(name)) && p != "" && x != "" && s == p + "." + x
  {
    hide TrimSpace;
    var ps, d, n := Prefixes(name, dotPath), TrimSpace(dotPath), TrimSpace(name);
    if p :| p in ps && p <= s && |s| > |p| {
      assert p == p[..|p| - 1] + "." && s == p + s[|p|..];
    }
    if p, x :| (p == d || p == n) && p != "" && x != "" && s == p + "." + x {
      assert d != "" ==> ps[0] == d + ".";
      assert n != "" && n != d ==> ps[|ps| - 1] == n + ".";
      assert p + "." in ps && p + "." <= s;
    }
  }

  /** The symbol stands somewhere in one of the functions. */
  ghost predicate Mentions(fns: seq<Function>, s: string) {
    exists f :: f in fns && Occurs(s, f)
  }

  lemma {:induction false} MentionsIff(fns: seq<Function>, s: string)
    ensures Mentions(fns, s) <==> s != "" && s in Symbols(fns)
  {
    hide Occurs, FunctionRefs;
    forall f | f in fns
      ensures Occurs(s, f) <==> s != "" && exists r :: r in FunctionRefs(f) && r.sym == s
    {
      OccursIff(s, f);
    }
  }

  lemma {:induction false} WantedNamed(prefixes: seq<string>)
    ensures forall s :: Wanted(prefixes, s) ==> s != ""
  {
  }

  /** Collects the wanted symbols, each once, in byte order. */
  method RequiredSymbols(fns: seq<Function>, inits: seq<Function>, name: string, dotPath: string)
      returns (out: seq<string>)
    ensures forall s :: s in out <==> Mentions(fns + inits, s) && Wanted(Prefixes(name, dotPath), s)
    ensures forall i, j :: 0 <= i < j < |out| ==> LexLess(out[i], out[j])
  {
    hide Sorted, Mentions, Wanted;
    var prefixes := Prefixes(name, dotPath);
    out := [];
    var all := fns + inits;
    for i := 0 to |all|
      invariant forall s :: s in out <==> s in Symbols(all[..i]) && Wanted(prefixes, s)
      invariant forall i, j :: 0 <= i < j < |out| ==> out[i] != out[j]
    {
      out := AddWanted(all[..i], all[i], prefixes, out);
      assert all[..i + 1] == all[..i] + [all[i]];
    }
    assert all[..|all|] == all;
    SortNames(out);
    out := Sorted(out);
    WantedNamed(prefixes);
    forall s
      ensures Mentions(all, s) <==> s != "" && s in Symbols(all)
    {
      MentionsIff(all, s);
    }
  }

  function Sorted(names: seq<string>): seq<string> {
    Sort(LexLess, names)
  }

  /** Sorting distinct names puts the same ones in strictly ascending order. */
  lemma {:induction false} SortNames(names: seq<string>)
    requires forall i, j :: 0 <= i < j < |names| ==> names[i] != names[j]
    ensures var sorted := Sorted(names);
      && (forall s :: s in sorted <==> s in names)
      && (forall i, j :: 0 <= i < j < |sorted| ==> LexLess(sorted[i], sorted[j]))
  {
    hide LexLess, Sort;
    var sorted := Sorted(names);
    LexIsWeakOrder();
    SortOrdered(LexLess, names);
    var at := SortPlaces(LexLess, names);
    var source := SortSources(LexLess, names);
    forall s
      ensures s in sorted <==> s in names
    {
      if s in sorted {
        var i :| 0 <= i < |sorted| && sorted[i] == s;
        assert names[source[i]] == s;
      }
      if s in names {
        var i :| 0 <= i < |names| && names[i] == s;
        assert sorted[at[i]] == s;
      }
    }
    forall i, j | 0 <= i < j < |sorted|
      ensures LexLess(sorted[i], sorted[j])
    {
      assert names[source[i]] != names[source[j]];
      LexTotal(sorted[i], sorted[j]);
    }
  }

  method AddWanted(ghost before: seq<Function>, f: Function, prefixes: seq<string>, out0: seq<string>)
      returns (out: seq<string>)
    requires forall s :: s in out0 <==> s in Symbols(before) && Wanted(prefixes, s)
    requires forall i, j :: 0 <= i < j < |out0| ==> out0[i] != out0[j]
    ensures forall s :: s in out <==> s in Symbols(before + [f]) && Wanted(prefixes, s)
    ensures forall i, j :: 0 <= i < j < |out| ==> out[i] != out[j]
  {
    out := out0;
    var refs := FunctionRefs(f);
    for k := 0 to |refs|
      invariant forall s :: s in out <==> s in out0 || exists j :: 0 <= j < k && refs[j].sym == s && Wanted(prefixes, s)
      invariant forall i, j :: 0 <= i < j < |out| ==> out[i] != out[j]
    {
      var sym := refs[k].sym;
      if Wanted(prefixes, sym) && sym !in out {
        out := out + [sym];
      }
    }
    forall s
      ensures s in Symbols(before + [f]) <==> s in Symbols(before) || exists j :: 0 <= j < |refs| && refs[j].sym == s
    {
      SymbolsSnoc(before, f, s);
    }
  }

  lemma {:induction false} SymbolsSnoc(before: seq<Function>, f: Function, s: string)
    ensures var refs := FunctionRefs(f);
      s in Symbols(before + [f]) <==> s in Symbols(before) || exists j :: 0 <= j < |refs| && refs[j].sym == s
  {
  }

  /** What the library must be given: exactly the consumer's wanted symbols, in any order. */
  ghost predicate Requires(fns: seq<Function>, name: string, dotPath: string, required: seq<string>) {
    forall s :: s in required <==> Mentions(fns, s) && Wanted(Prefixes(name, dotPath), s)
  }

  /**
   Strip, qualify and prune together satisfy the consumer: each `name.f` it mentions whose
   `f` is an ordinary export is defined in the library, and means what `f` means.
   */
  lemma {:induction false} ConsumerSatisfied<D>(sem: Semantics<D>, n: nat,
      consumer: seq<Function>, name: string, dotPath: string, required: seq<string>, fs: seq<Function>, gs: seq<Global>, f: Function)
    requires Requires(consumer, name, dotPath, required)
    requires name != "" && TrimSpace(name) == name
    requires DistinctNames(fs) && NoClash(WithoutMain(fs), name)
    requires f in fs && Ordinary(f) && Mentions(consumer, Prefixed(name, f.name))
    ensures var lib := Library(fs, name, required);
      && Prefixed(name, f.name) in Index(lib)
      && (forall g :: g in lib ==> g.name != "main")
      && (Patchable(WithoutMain(fs), name) && InitsUntouched(WithoutMain(fs), gs, name)
          && InitsSurvive(Qualified(WithoutMain(fs), name), gs, required) ==>
            Resolve(sem, lib, gs, n, Prefixed(name, f.name)) == Resolve(sem, WithoutMain(fs), gs, n, f.name))
  {
    var sym := Prefixed(name, f.name);
    assert name + "." in Prefixes(name, dotPath) by {
      if TrimSpace(dotPath) != name {
        assert Prefixes(name, dotPath)[|Prefixes(name, dotPath)| - 1] == name + ".";
      }
    }
    assert name + "." <= sym;
    assert sym in required;
    LibraryDefines(fs, name, required, f);
    LibraryHasNoMain(fs, name, required);
    if Patchable(WithoutMain(fs), name) && InitsUntouched(WithoutMain(fs), gs, name)
       && InitsSurvive(Qualified(WithoutMain(fs), name), gs, required) {
      LibraryKeepsMeaning(sem, fs, gs, name, required, f, n);
    }
  }

  /** A required symbol is defined in the library exactly when some function ends up with that name. */
  lemma {:induction false} RequiredDefinedIff(fs: seq<Function>, name: string, required: seq<string>, s: string)
    requires s in required && name != "" && s != ""
    ensures var w := WithoutMain(fs);
      s in Index(Library(fs, name, required)) <==> exists f :: f in w && Renamed(Renames(w, name), f.name) == s
  {
    hide Index, Kept, Qualified, WithoutMain, Renames, Renamed;
    var w := WithoutMain(fs);
    var q := Qualified(w, name);
    QualifiedDefinedIff(w, name, s);
    if s in Index(q) {
      KeptStarts(q, required, s);
    }
    OnlyIndex(q, Kept(q, required), s);
  }

  lemma {:induction false} QualifiedDefinedIff(w: seq<Function>, name: string, s: string)
    requires name != "" && s != ""
    ensures s in Index(Qualified(w, name)) <==> exists f :: f in w && Renamed(Renames(w, name), f.name) == s
  {
    hide Index, Renames, Renamed;
    var q := Qualified(w, name);
    IndexHolds(q, s);
    if s in Index(q) {
      var g :| g in q && g.name == s;
      var i :| 0 <= i < |q| && q[i] == g;
      assert w[i] in w && Renamed(Renames(w, name), w[i].name) == s;
    }
    if exists f :: f in w && Renamed(Renames(w, name), f.name) == s {
      var f :| f in w && Renamed(Renames(w, name), f.name) == s;
      var i :| 0 <= i < |w| && w[i] == f;
      assert q[i] in q && q[i].name == s;
    }
  }

  /**
   The dotted path is accepted as a prefix but never used for naming: a consumer that spells
   the call `a.b.f` requires a symbol the library of package `b` does not define.
   */
  lemma {:induction false} DottedPathNotProvided()
    ensures var f := Function("f", [], true, "");
      && Wanted(Prefixes("b", "a.b"), "a.b.f")
      && "a.b.f" !in Index(Library([f], "b", ["a.b.f"]))
  {
    hide Index, Library;
    var f := Function("f", [], true, "");
    var required := ["a.b.f"];
    assert TrimSpace("a.b") == "a.b" && TrimSpace("b") == "b";
    var prefixes := Prefixes("b", "a.b");
    assert prefixes[0] == "a.b.";
    assert prefixes[0] <= "a.b.f";
    RequiredDefinedIff([f], "b", required, "a.b.f");
    WithoutMainMembers([f]);
    var w := WithoutMain([f]);
    RenamesFacts(w, "b");
    assert forall g :: g in w ==> g == f;
    assert [f][0] == f && f in w && Ordinary(f);
    assert Renamed(Renames(w, "b"), "f") == "b.f";
    assert |"b.f"| == 3 && |"a.b.f"| == 5;
  }
}
