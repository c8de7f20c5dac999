/**
 `strings.trim` of the standard library, which calls two functions of its module by their bare names, and
 a user function that calls it: all three come out, and the user function keeps its meaning.
 */
module TrimSource {

  import opened Demands
  import opened Emission
  import opened Inject
  import opened Injected
  import opened Ir
  import opened Link
  import opened LinkMeaning
  import opened Mangle
  import opened Meaning
  import opened Passes
  import opened Places
  import opened Stdlib
  import opened Wrappers

  const STRING := OtherType("String")
  const TEXT := Ident(Param, "s", STRING)
  const INNER := Call(Ident(Fn, "trimStart", STRING), [], [], [TEXT], STRING)
  const OUTER := Call(Ident(Fn, "trimEnd", STRING), [], [], [INNER], STRING)
  const STRINGS := Registry(
    map[("strings", "trim") := FnEntry([], ["s"], Some(OUTER)),
        ("strings", "trimStart") := FnEntry([], ["s"], Some(TEXT)),
        ("strings", "trimEnd") := FnEntry([], ["s"], Some(TEXT))],
    map[], map[], map[], {})

  const CLEANING := Call(Field(Ident(Unknown, "strings", STRING), "trim", STRING), [], [], [TEXT], STRING)
  const CLEANER := UserModule(map["clean" := UserEntry([], ["s"], CLEANING)], {})

  lemma {:induction false} NamesClean()
    ensures CleanNames(STRINGS, CLEANER)
  {
    assert "osty_std_"[0] == 'o' && "std."[0] == 's' && "std."[3] == '.' && "strings"[3] == 'i';
    assert "clean"[0] == 'c' && "trim"[0] == 't' && "trimStart"[0] == 't' && "trimEnd"[0] == 't';
  }

  lemma {:induction false} SitsThere()
    ensures Sits(Walked, CLEANING, Walked, CLEANING) && Sits(Walked, OUTER, Walked, OUTER) && Sits(Walked, OUTER, Spliced, INNER)
  {
    assert AnySits(Spliced, [INNER], Spliced, INNER);
  }

  lemma {:induction false} AllKeys()
    ensures UserFn("clean") in Keys(STRINGS, CLEANER) && StdFn("strings", "trim") in Keys(STRINGS, CLEANER)
    ensures BodyOf(STRINGS, CLEANER, UserFn("clean")) == CLEANING && BodyOf(STRINGS, CLEANER, StdFn("strings", "trim")) == OUTER
  {
    assert ("strings", "trim") in STRINGS.fns;
    assert StdFn("strings", "trim") in FnKeys(STRINGS);
  }

  lemma {:induction false} CalleesNamed()
    ensures CalleeNames(STRINGS, User, CLEANING.callee, "strings", "trim")
    ensures CalleeNames(STRINGS, Std("strings"), OUTER.callee, "strings", "trimEnd")
    ensures CalleeNames(STRINGS, Std("strings"), INNER.callee, "strings", "trimStart")
  {
  }

  /** Every output of the injection defines all three, and `trim` calls the others under their symbols. */
  lemma {:induction false} TrimInjected(o: Output)
    requires Injects(STRINGS, CLEANER, o)
    ensures {"osty_std_strings__trim", "osty_std_strings__trimStart", "osty_std_strings__trimEnd", "clean"} <= o.fns.Keys
    ensures CallsInstead(o.fns["clean"].body, CLEANING, "osty_std_strings__trim")
    ensures CallsInstead(o.fns["osty_std_strings__trim"].body, OUTER, "osty_std_strings__trimEnd")
    ensures CallsInstead(o.fns["osty_std_strings__trim"].body, INNER, "osty_std_strings__trimStart")
  {
    hide CleanNames, Injects, Items, Sits, CallsInstead, BodyOf, Keys, CalleeNames;
    var clean, trim := UserFn("clean"), StdFn("strings", "trim");
    NamesClean();
    AllKeys();
    SitsThere();
    CalleesNamed();
    ItemsAreLeast(STRINGS, CLEANER);
    CallInjected(STRINGS, CLEANER, o, clean, Walked, CLEANING, "strings", "trim");
    FnDemanded(STRINGS, CLEANER, clean, Walked, CLEANING, "strings", "trim");
    CallInjected(STRINGS, CLEANER, o, trim, Walked, OUTER, "strings", "trimEnd");
    CallInjected(STRINGS, CLEANER, o, trim, Spliced, INNER, "strings", "trimStart");
    TrimSymbols();
  }

  lemma {:induction false} TrimSymbols()
    ensures StdlibSymbol("strings", "trim") == "osty_std_strings__trim" && StdlibSymbol("strings", "trimStart") == "osty_std_strings__trimStart"
    ensures StdlibSymbol("strings", "trimEnd") == "osty_std_strings__trimEnd"
  {
  }

  lemma {:induction false} NoGlobalsThere()
    ensures StdTables(STRINGS, "strings").globals == map[] && UserTables(STRINGS, CLEANER).globals == map[]
  {
    hide QualifiedTable, BodiedMethods;
  }

  lemma {:induction false} BodiesFit(p: Program, emitted: set<string>)
    ensures Fits(p, UserTables(STRINGS, CLEANER), emitted, Walked, CLEANING)
    ensures Fits(p, StdTables(STRINGS, "strings"), emitted, Walked, OUTER) && Fits(p, StdTables(STRINGS, "strings"), emitted, Walked, TEXT)
  {
    hide UserTables, StdTables, CalleeNames;
    NoGlobalsThere();
    CalleesNamed();
    NamedTarget(STRINGS, CLEANER, User, CLEANING.callee, "strings", "trim");
    NamedTarget(STRINGS, CLEANER, Std("strings"), OUTER.callee, "strings", "trimEnd");
    NamedTarget(STRINGS, CLEANER, Std("strings"), INNER.callee, "strings", "trimStart");
    var t := StdTables(STRINGS, "strings");
    assert FitsAll(p, t, emitted, Spliced, [TEXT]);
    assert Fits(p, t, emitted, Spliced, INNER);
    assert FitsAll(p, t, emitted, Spliced, [INNER]);
    assert FitsAll(p, UserTables(STRINGS, CLEANER), emitted, Spliced, [TEXT]);
  }

  lemma {:induction false} KeysTold(k: Key)
    requires k in Keys(STRINGS, CLEANER)
    ensures (k == UserFn("clean") && BodyOf(STRINGS, CLEANER, k) == CLEANING) || (k.StdFn? && k.owner == "strings" && BodyOf(STRINGS, CLEANER, k) in [OUTER, TEXT])
  {
    if k.StdFn? {
      assert BodyOf(STRINGS, CLEANER, k) == [OUTER, TEXT][if k.name == "trim" then 0 else 1];
    }
  }

  /** The program fits, so the user function means in the output what it meant in the source. */
  lemma {:induction false} TrimMeans<D>(sem: Semantics<D>, o: Output, depth: nat)
    requires Injects(STRINGS, CLEANER, o) && o.runtime == RuntimeSymbols(STRINGS)
    ensures FnAgrees(sem, ProgramOf(STRINGS, CLEANER), o, depth, UserFn("clean"))
  {
    hide CleanNames, Items, Holds, BodyOf, Keys, ProgramOf, FnAgrees, Fits, StdTables, UserTables, OwnFits;
    var p := ProgramOf(STRINGS, CLEANER);
    NamesClean();
    ProgramWellFormed(STRINGS, CLEANER);
    ItemsAreLeast(STRINGS, CLEANER);
    BodiesFit(p, Symbols(o));
    forall k | k in Items(p, Impls(STRINGS)) && k in p.defs
      ensures Fits(p, KeyTables(p, k), Symbols(o), Walked, p.defs[k].body) && !k.StdLet?
    {
      KeysTold(k);
      TablesAt(STRINGS, CLEANER, k);
    }
    UserFunctionsKeepMeaning(sem, STRINGS, CLEANER, o, depth, "clean");
  }
}
