/**
 A method of an interface that values override, from `std.error`: asked through the interface, an error
 that wraps another one has no source after linking.
 */
module ErrorSource {

  import opened Emission
  import opened Inject
  import opened Injected
  import opened Ir
  import opened Link
  import opened LinkLimits
  import opened LinkMeaning
  import opened Meaning
  import opened Passes
  import opened Stdlib
  import opened Wrappers

  /** `std.error` declares `source` on its interface, with a default body, and on a type that has a cause. */
  const ERROR_SOURCE := MethodKey("error", "Error", "source")
  const WRAPPED_SOURCE := MethodKey("error", "WrappedError", "source")
  const NO_CAUSE := Shape(Leaf, "None", [], Optional(Named("error", "Error", [], false)))
  const ITS_CAUSE := Shape(VariantLit, "Some", [Field(Ident(Param, "self", Named("error", "WrappedError", [], false)), "cause", Named("error", "Error", [], false))],
                           Optional(Named("error", "Error", [], false)))
  const ERRORS := Registry(
    map[],
    map[ERROR_SOURCE := FnEntry([], [], Some(NO_CAUSE)), WRAPPED_SOURCE := FnEntry([], [], Some(ITS_CAUSE))],
    map[], map[], {("error", "Error")})

  /** A user function that asks an error for its source. */
  const ASK := MethodCall(Ident(Param, "err", Named("error", "Error", [], false)), "source", [], [], [], Optional(Named("error", "Error", [], false)))
  const ASKING := UserModule(map["ask" := UserEntry([], ["err"], Shape(Block, "", [ASK], Optional(Named("error", "Error", [], false))))], {})

  lemma {:induction false} ErrorsClean()
    ensures CleanNames(ERRORS, ASKING)
  {
    assert "osty_std_"[0] == 'o' && "std."[0] == 's' && "ask"[0] == 'a';
  }

  lemma {:induction false} ErrorKeys()
    ensures UserFn("ask") in Keys(ERRORS, ASKING) && StdMethod(ERROR_SOURCE) in Keys(ERRORS, ASKING)
    ensures ERROR_SOURCE in BodiedMethods(ERRORS)
    ensures ERROR_SOURCE in Implementers(ERRORS, ASKING) && WRAPPED_SOURCE in Implementers(ERRORS, ASKING)[ERROR_SOURCE]
  {
    assert ERROR_SOURCE in BodiedMethods(ERRORS);
    assert StdMethod(ERROR_SOURCE) in MethodKeys(ERRORS);
  }

  lemma {:induction false} AskDefined()
    ensures var p := ProgramOf(ERRORS, ASKING);
      && UserFn("ask") in p.defs && p.defs[UserFn("ask")] == Code(User, None, [], ["err"], ASKING.fns["ask"].body)
      && StdMethod(ERROR_SOURCE) in p.defs && p.defs[StdMethod(ERROR_SOURCE)].owner.Some?
      && Overridable(p, ERROR_SOURCE) && WRAPPED_SOURCE in p.impls[ERROR_SOURCE]
      && ScopeTables(p, User) == UserTables(ERRORS, ASKING)
  {
    hide Keys, Implementers, UserTables, StdTables, Modules, TypeGenerics;
    ErrorKeys();
  }

  lemma {:induction false} NoSelfParameter(k: Key)
    requires k in Keys(ERRORS, ASKING)
    ensures "self" !in CodeOf(ERRORS, ASKING, k).params
  {
    hide TypeGenerics;
    assert "self"[0] == 's' && "err"[0] == 'e';
  }

  lemma {:induction false} AskFound()
    ensures MethodSite(ERROR_SOURCE) in Sites(Walked, ASKING.fns["ask"].body)
  {
    assert SitesAll(Spliced, [ASK]) == Sites(Spliced, ASK) + SitesAll(Spliced, [ASK][1..]);
    assert MethodSite(ERROR_SOURCE) in Sites(Spliced, ASK);
  }

  lemma {:induction false} AskResolves()
    ensures MethodTarget(UserTables(ERRORS, ASKING), ASK.recv.ty, ASK.name) == Some(ERROR_SOURCE)
    ensures Lookup(UserTables(ERRORS, ASKING), MethodSite(ERROR_SOURCE)) == Some(Def(StdMethod(ERROR_SOURCE)))
  {
    hide BodiedMethods;
    ErrorKeys();
  }

  lemma {:induction false} AskReaches()
    ensures var p := ProgramOf(ERRORS, ASKING);
      && UserFn("ask") in p.defs
      && CallRef(KeyTables(p, UserFn("ask")), Sites(Walked, p.defs[UserFn("ask")].body), StdMethod(ERROR_SOURCE))
  {
    hide Sites, UserTables, ProgramOf, Lookup;
    AskDefined();
    AskFound();
    AskResolves();
  }

  /** Asked through the interface, a wrapped error runs the default body: in every output of the injection it has no source. */
  lemma {:induction false} ErrorSourceLost(o: Output)
    requires Holds(ProgramOf(ERRORS, ASKING), Items(ProgramOf(ERRORS, ASKING), Impls(ERRORS)), o)
    ensures !MeansSame(Overrides(WRAPPED_SOURCE), ProgramOf(ERRORS, ASKING), o, 1, User, Spliced, ASK)
  {
    hide CleanNames, Items, CallItems, WellFormed, NamesFit, RuntimeFits, CallRef, Sites, ProgramOf, OwnFits, UserTables, MeansSame,
         Overrides, Impls, Before, After, Rewrite, SelfFree;
    var p := ProgramOf(ERRORS, ASKING);
    ErrorsClean();
    AskDefined();
    AskReaches();
    AskResolves();
    AskSelfFree();
    ProgramWellFormed(ERRORS, ASKING);
    ItemsSplit(p, Impls(ERRORS));
    assert UserFn("ask") in UserKeys(p);
    CallRefReached(p, Impls(ERRORS), UserFn("ask"), StdMethod(ERROR_SOURCE));
    ErrMeans(o);
    OverrideLost(p, o, 1, User, ASK, ERROR_SOURCE, WRAPPED_SOURCE);
  }

  lemma {:induction false} ErrMeans(o: Output)
    ensures var p, sem := ProgramOf(ERRORS, ASKING), Overrides(WRAPPED_SOURCE);
      After(sem, o, 1, Rewrite(ScopeTables(p, User), Spliced, ASK.recv)) == Before(sem, p, 1, User, ASK.recv)
  {
    hide ProgramOf, UserTables, StdTables;
  }

  lemma {:induction false} AskSelfFree()
    ensures SelfFree(ProgramOf(ERRORS, ASKING), ASK)
  {
    hide Keys, CodeOf;
    forall k | k in Keys(ERRORS, ASKING)
      ensures "self" !in CodeOf(ERRORS, ASKING, k).params
    {
      NoSelfParameter(k);
    }
  }
}
