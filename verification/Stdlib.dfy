/**
 The standard library registry and the user's module, and the program the injector links from them:
 which names each scope rewrites, and to what.
 */
module Stdlib {

  import opened Ir
  import opened Mangle
  import opened Link
  import opened LinkMeaning
  import opened Meaning
  import opened Passes
  import opened Inject
  import opened Injected
  import opened Emission
  import opened EmittedBodies
  import opened Wrappers

  /** A declared function or method; those without a body are backed by the runtime. */
  datatype FnEntry = FnEntry(generics: seq<string>, params: seq<string>, body: Option<Node>)

  datatype UserEntry = UserEntry(generics: seq<string>, params: seq<string>, body: Node)

  /** The user's functions, and the methods the user's types declare, by type and name. */
  datatype UserModule = UserModule(fns: map<string, UserEntry>, methods: set<(string, string)>)

  /** Functions and globals by module and name, methods, the generics of types, and which types are interfaces. */
  datatype Registry = Registry(
    fns: map<(string, string), FnEntry>,
    methods: map<MethodKey, FnEntry>,
    lets: map<(string, string), Node>,
    generics: map<(string, string), seq<string>>,
    interfaces: set<(string, string)>)

  // ---- Names in scope ----

  /** The lookups refuse empty names. */
  predicate Findable(k: (string, string)) {
    k.0 != "" && k.1 != ""
  }

  function FnTarget(k: (string, string), e: FnEntry): Target {
    if e.body.Some? then Def(StdFn(k.0, k.1)) else Runtime(CanonicalSymbol(k.0, k.1))
  }

  function BodiedMethods(reg: Registry): set<MethodKey> {
    set k | k in reg.methods && reg.methods[k].body.Some? && k.owner != "" && k.typeName != "" && k.name != ""
  }

  /** The module a qualifier names. */
  function QualifierModule(q: string): string {
    if "std." <= q then q[4..] else q
  }

  predicate CallableModule(m: string) {
    m != "" && m != "error"
  }

  /** The declaration a qualified name stands for. */
  function Qualified(q: (string, string)): (string, string) {
    (QualifierModule(q.0), q.1)
  }

  predicate Callable(reg: Registry, q: (string, string)) {
    Qualified(q) in reg.fns && Findable(Qualified(q)) && CallableModule(Qualified(q).0)
  }

  /** Each function under its module's name and under the same with `std.` before it. */
  function QualifiedNames(reg: Registry): set<(string, string)> {
    reg.fns.Keys + set k | k in reg.fns :: ("std." + k.0, k.1)
  }

  function QualifiedTable(reg: Registry): map<(string, string), Target> {
    map q | q in QualifiedNames(reg) && Callable(reg, q) :: FnTarget(Qualified(q), reg.fns[Qualified(q)])
  }

  /** In a stdlib body: same-module functions and globals by name, any module's functions qualified, and methods. */
  function StdTables(reg: Registry, m: string): Tables {
    Tables(
      map k | k in reg.fns && Findable(k) && k.0 == m :: k.1 := FnTarget(k, reg.fns[k]),
      QualifiedTable(reg),
      BodiedMethods(reg),
      map k | k in reg.lets && Findable(k) && k.0 == m :: k.1 := StdLet(k.0, k.1),
      map[])
  }

  /** In a user body only functions and methods with a body are rewritten. */
  function UserTables(reg: Registry, user: UserModule): Tables {
    Tables(
      map[],
      map k | k in reg.fns && Findable(k) && reg.fns[k].body.Some? :: k := Def(StdFn(k.0, k.1)),
      BodiedMethods(reg),
      map[],
      map f | f in user.fns :: UserFn(f))
  }

  function Modules(reg: Registry): set<string> {
    (set k | k in reg.fns :: k.0) + (set k | k in reg.methods :: k.owner) + (set k | k in reg.lets :: k.0)
  }

  /** The qualified table leaves no callable name out. */
  lemma {:induction false} QualifiedTableIff(reg: Registry, q: (string, string))
    ensures q in QualifiedTable(reg) <==> Callable(reg, q)
  {
    if Callable(reg, q) {
      var k := Qualified(q);
      if "std." <= q.0 {
        assert q.0 == "std." + k.0;
        assert q == ("std." + k.0, k.1);
      } else {
        assert q == k;
      }
    }
  }

  // ---- The program ----

  function FnKeys(reg: Registry): set<Key> {
    set k | k in reg.fns && Findable(k) && reg.fns[k].body.Some? :: StdFn(k.0, k.1)
  }

  function MethodKeys(reg: Registry): set<Key> {
    set k | k in BodiedMethods(reg) :: StdMethod(k)
  }

  function LetKeys(reg: Registry): set<Key> {
    set k | k in reg.lets && Findable(k) :: StdLet(k.0, k.1)
  }

  function Keys(reg: Registry, user: UserModule): set<Key> {
    FnKeys(reg) + MethodKeys(reg) + LetKeys(reg) + set f | f in user.fns :: UserFn(f)
  }

  function TypeGenerics(reg: Registry, k: MethodKey): seq<string> {
    if (k.owner, k.typeName) in reg.generics then NamedGenerics(reg.generics[(k.owner, k.typeName)]) else []
  }

  /** The named generics of a type; unnamed ones are passed over. */
  function NamedGenerics(gs: seq<string>): seq<string> {
    if gs == [] then [] else (if gs[0] == "" then [] else [gs[0]]) + NamedGenerics(gs[1..])
  }

  /** Generics that are all named stay as they are, ... */
  lemma {:induction false} AllNamed(gs: seq<string>)
    requires "" !in gs
    ensures NamedGenerics(gs) == gs
  {
    if gs != [] {
      AllNamed(gs[1..]);
    }
  }

  /** ... and an unnamed one leaves no trace. */
  lemma {:induction false} UnnamedGoes(a: seq<string>, b: seq<string>)
    ensures NamedGenerics(a + [""] + b) == NamedGenerics(a + b)
  {
    hide NamedGenerics;
    if a == [] {
      assert [] + [""] + b == [""] + b && [] + b == b && ([""] + b)[1..] == b;
      NamedUnfold([""] + b);
    } else {
      UnnamedGoes(a[1..], b);
      assert (a + [""] + b)[1..] == a[1..] + [""] + b && (a + b)[1..] == a[1..] + b;
      NamedUnfold(a + [""] + b);
      NamedUnfold(a + b);
    }
  }

  lemma {:induction false} NamedUnfold(gs: seq<string>)
    requires gs != []
    ensures NamedGenerics(gs) == (if gs[0] == "" then [] else [gs[0]]) + NamedGenerics(gs[1..])
  {
  }

  /** A method as declared, with the generics of its owner. */
  function MethodCode(reg: Registry, k: MethodKey, e: FnEntry): Code
    requires e.body.Some?
  {
    Code(Std(k.owner), Some(TypeGenerics(reg, k)), e.generics, e.params, e.body.value)
  }

  function CodeOf(reg: Registry, user: UserModule, k: Key): Code
    requires k in Keys(reg, user)
  {
    match k
    case StdFn(m, f) => var e := reg.fns[(m, f)]; Code(Std(m), None, e.generics, e.params, e.body.value)
    case StdMethod(mk) => MethodCode(reg, mk, reg.methods[mk])
    case StdLet(m, x) => Code(Std(m), None, [], [], reg.lets[(m, x)])
    case UserFn(f) => Code(User, None, user.fns[f].generics, user.fns[f].params, user.fns[f].body)
  }

  function TablesOf(reg: Registry, user: UserModule, scope: Scope): Tables {
    match scope
    case User => UserTables(reg, user)
    case Std(m) => StdTables(reg, m)
  }

  function ProgramOf(reg: Registry, user: UserModule): Program {
    Program(map k | k in Keys(reg, user) :: CodeOf(reg, user, k),
            map scope | scope in {User} + set m | m in Modules(reg) :: Std(m) :: TablesOf(reg, user, scope),
            Implementers(reg, user))
  }

  /** The methods of concrete types that may implement an interface's method. */
  function Impls(reg: Registry): map<MethodKey, set<MethodKey>> {
    map k | k in reg.methods && (k.owner, k.typeName) in reg.interfaces ::
      set m | m in reg.methods && m.owner == k.owner && m.name == k.name && (m.owner, m.typeName) !in reg.interfaces
  }

  /** What the values of an interface may have for its methods: methods of that name of any concrete type. */
  function Implementers(reg: Registry, user: UserModule): map<MethodKey, set<MethodKey>> {
    map k | k in reg.methods && (k.owner, k.typeName) in reg.interfaces ::
      (set m | m in reg.methods && m.name == k.name && (m.owner, m.typeName) !in reg.interfaces)
      + set u | u in user.methods && u.1 == k.name :: MethodKey("", u.0, u.1)
  }

  /** A method can be overridden exactly if it is an interface's and some concrete type has a method of that name. */
  lemma {:induction false} OverridableIff(reg: Registry, user: UserModule, k: MethodKey)
    ensures Overridable(ProgramOf(reg, user), k) <==>
      && k in reg.methods && (k.owner, k.typeName) in reg.interfaces
      && ((exists m :: m in reg.methods && m.name == k.name && (m.owner, m.typeName) !in reg.interfaces)
          || (exists ty :: (ty, k.name) in user.methods))
  {
    hide Keys, CodeOf, TablesOf, Modules;
    if m :| k in Implementers(reg, user) && m in Implementers(reg, user)[k] {
      assert (m in reg.methods && m.name == k.name && (m.owner, m.typeName) !in reg.interfaces) || (m.typeName, k.name) in user.methods;
    }
    if k in Implementers(reg, user) {
      if m :| m in reg.methods && m.name == k.name && (m.owner, m.typeName) !in reg.interfaces {
        assert m in Implementers(reg, user)[k];
      }
      if ty :| (ty, k.name) in user.methods {
        assert (ty, k.name).1 == k.name;
        assert MethodKey("", ty, k.name) in Implementers(reg, user)[k];
      }
    }
  }

  function RuntimeSymbols(reg: Registry): set<string> {
    set k | k in reg.fns && Findable(k) && reg.fns[k].body.None? :: CanonicalSymbol(k.0, k.1)
  }

  // ---- Clean registries give well-formed programs ----

  ghost predicate CleanName(x: string) {
    Single(x) && !("osty_std_" <= x) && !("std." <= x)
  }

  /** Names that the mangling keeps apart and that do not look mangled themselves. */
  ghost predicate CleanNames(reg: Registry, user: UserModule) {
    && (forall k :: k in reg.fns ==> Separable(k.0) && CleanName(k.1))
    && (forall k :: k in reg.lets ==> Separable(k.0) && CleanName(k.1) && k !in reg.fns)
    && (forall k :: k in reg.methods ==> Separable(k.owner) && Separable(k.typeName))
    && (forall f :: f in user.fns ==> !("osty_std_" <= f) && !("std." <= f))
  }

  lemma {:induction false} TargetMangled(k: (string, string), e: FnEntry, x: string)
    requires CleanName(x)
    ensures TargetSymbol(FnTarget(k, e)) != x
  {
  }

  lemma {:induction false} SymbolMangled(k: Key, x: string)
    requires CleanName(x) && !k.UserFn?
    ensures Symbol(k) != x
  {
  }

  lemma {:induction false} BareMangled(reg: Registry, user: UserModule, m: string)
    requires CleanNames(reg, user)
    ensures var t := StdTables(reg, m); forall x :: x in t.bare ==> TargetSymbol(t.bare[x]) !in t.bare
  {
    hide Single, Separable, TargetSymbol, QualifiedTable, CanonicalSymbol, BodiedMethods;
    var t := StdTables(reg, m);
    forall x | x in t.bare
      ensures TargetSymbol(t.bare[x]) !in t.bare
    {
      if TargetSymbol(t.bare[x]) in t.bare {
        TargetMangled((m, x), reg.fns[(m, x)], TargetSymbol(t.bare[x]));
      }
    }
  }

  lemma {:induction false} QualifiedMangled(reg: Registry, user: UserModule, m: string)
    requires CleanNames(reg, user)
    ensures var t := StdTables(reg, m); forall x :: x in t.qual ==> TargetSymbol(t.qual[x]) !in t.bare
  {
    hide Single, Separable, TargetSymbol, CanonicalSymbol, BodiedMethods, QualifiedNames, Qualified;
    var t := StdTables(reg, m);
    forall x | x in t.qual
      ensures TargetSymbol(t.qual[x]) !in t.bare
    {
      if TargetSymbol(t.qual[x]) in t.bare {
        TargetMangled(Qualified(x), reg.fns[Qualified(x)], TargetSymbol(t.qual[x]));
      }
    }
  }

  lemma {:induction false} MethodsAndLetsMangled(reg: Registry, user: UserModule, m: string)
    requires CleanNames(reg, user)
    ensures var t := StdTables(reg, m);
      && (forall k :: k in t.methods ==> Symbol(StdMethod(k)) !in t.bare)
      && (forall x :: x in t.globals ==> Symbol(t.globals[x]) !in t.globals)
  {
    hide Single, Separable, Symbol, CanonicalSymbol, BodiedMethods, QualifiedTable;
    var t := StdTables(reg, m);
    forall k | k in t.methods
      ensures Symbol(StdMethod(k)) !in t.bare
    {
      if Symbol(StdMethod(k)) in t.bare {
        SymbolMangled(StdMethod(k), Symbol(StdMethod(k)));
      }
    }
    forall x | x in t.globals
      ensures Symbol(t.globals[x]) !in t.globals
    {
      if Symbol(t.globals[x]) in t.globals {
        SymbolMangled(t.globals[x], Symbol(t.globals[x]));
      }
    }
  }

  lemma {:induction false} StdFresh(reg: Registry, user: UserModule, m: string)
    requires CleanNames(reg, user)
    ensures SymbolsFresh(StdTables(reg, m))
  {
    hide StdTables, CleanNames, TargetSymbol, Symbol;
    BareMangled(reg, user, m);
    QualifiedMangled(reg, user, m);
    MethodsAndLetsMangled(reg, user, m);
    StdNamesNonEmpty(reg, m);
  }

  lemma {:induction false} StdNamesNonEmpty(reg: Registry, m: string)
    ensures var t := StdTables(reg, m); "" !in t.bare && "" !in t.globals && (forall x :: x in t.qual ==> x.0 != "" && x.1 != "")
  {
  }

  /** A global's symbol is no function name and no qualifier of a stdlib scope. */
  lemma {:induction false} GlobalSymbolApart(reg: Registry, user: UserModule, m: string, x: string)
    requires CleanNames(reg, user) && x in StdTables(reg, m).globals
    ensures var t, sym := StdTables(reg, m), Symbol(StdTables(reg, m).globals[x]);
      sym !in t.bare && forall y :: y in t.qual ==> sym != y.0
  {
    hide BodiedMethods, QualifiedNames, CanonicalSymbol, Separable, Single;
    var t := StdTables(reg, m);
    var sym := Symbol(t.globals[x]);
    if sym in t.bare {
      SymbolMangled(t.globals[x], sym);
    }
    forall y | y in t.qual
      ensures sym != y.0
    {
      NotAQualifier(m, x, y.0, Qualified(y).0);
    }
  }

  lemma {:induction false} NotAQualifier(m: string, x: string, q: string, j: string)
    requires Separable(j) && j == QualifierModule(q)
    ensures StdlibSymbol(m, x) != q
  {
    var sym := StdlibSymbol(m, x);
    assert sym[0] == 'o' && "std."[0] == 's';
    assert DoubleAt(sym, 9 + |m|);
  }

  /** The stdlib scopes meet what the accounts of left-over spellings ask for. */
  lemma {:induction false} StdAllFresh(reg: Registry, user: UserModule, m: string)
    requires CleanNames(reg, user)
    ensures AllFresh(StdTables(reg, m))
  {
    hide StdTables, CleanNames, SymbolsFresh, Symbol;
    StdFresh(reg, user, m);
    var t := StdTables(reg, m);
    forall x | x in t.globals
      ensures Symbol(t.globals[x]) !in t.bare && forall y :: y in t.qual ==> Symbol(t.globals[x]) != y.0
    {
      GlobalSymbolApart(reg, user, m, x);
    }
  }

  /** No global is named like a module. */
  ghost predicate LetsNotModules(reg: Registry) {
    forall k, j :: k in reg.lets && j in reg.fns ==> k.1 != j.0
  }

  lemma {:induction false} LetNameApart(reg: Registry, user: UserModule, m: string, x: string)
    requires CleanNames(reg, user) && LetsNotModules(reg) && x in StdTables(reg, m).globals
    ensures x !in StdTables(reg, m).bare && forall y :: y in StdTables(reg, m).qual ==> x != y.0
  {
    hide Single, Separable, BodiedMethods, QualifiedNames, FnTarget;
    assert (m, x) in reg.lets && CleanName(x);
    forall y | y in StdTables(reg, m).qual
      ensures x != y.0
    {
      assert Qualified(y) in reg.fns;
    }
  }

  /** Where no global is named like a module, initialisers keep exactly the calls they had. */
  lemma {:induction false} StdGlobalsApart(reg: Registry, user: UserModule, m: string)
    requires CleanNames(reg, user) && LetsNotModules(reg)
    ensures GlobalsApart(StdTables(reg, m))
  {
    hide StdTables, CleanNames, LetsNotModules, Symbol;
    var t := StdTables(reg, m);
    forall x | x in t.globals
      ensures x !in t.bare && Symbol(t.globals[x]) !in t.bare
      ensures forall y :: y in t.qual ==> x != y.0 && Symbol(t.globals[x]) != y.0
    {
      GlobalSymbolApart(reg, user, m, x);
      LetNameApart(reg, user, m, x);
    }
  }

  lemma {:induction false} StdResolves(reg: Registry, user: UserModule, m: string, s: Site, k: Key)
    requires Lookup(StdTables(reg, m), s) == Some(Def(k))
    ensures k in Keys(reg, user) && (k.StdLet? <==> s.GlobalSite?)
  {
    hide QualifierModule;
    match s
    case BareSite(x) =>
      hide BodiedMethods, QualifiedTable;
      assert (m, x) in reg.fns && k == StdFn(m, x) && k in FnKeys(reg);
    case QualSite(q, x) =>
      hide BodiedMethods;
      var j := Qualified((q, x));
      assert j in reg.fns && k == StdFn(j.0, j.1) && k in FnKeys(reg);
    case MethodSite(mk) =>
      hide BodiedMethods, QualifiedTable;
      assert k == StdMethod(mk) && k in MethodKeys(reg);
    case GlobalSite(x) =>
      hide BodiedMethods, QualifiedTable;
      assert (m, x) in reg.lets && k == StdLet(m, x) && k in LetKeys(reg);
  }

  lemma {:induction false} UserResolves(reg: Registry, user: UserModule, s: Site, k: Key)
    requires Lookup(UserTables(reg, user), s) == Some(Def(k))
    ensures k in Keys(reg, user) && !k.StdLet? && !s.GlobalSite?
  {
  }

  /** What the injector needs of a program holds of every clean registry and user module. */
  lemma {:induction false} ProgramWellFormed(reg: Registry, user: UserModule)
    requires CleanNames(reg, user)
    ensures WellFormed(ProgramOf(reg, user)) && NamesFit(ProgramOf(reg, user))
    ensures RuntimeFits(ProgramOf(reg, user), RuntimeSymbols(reg))
    ensures forall scope :: scope in ProgramOf(reg, user).tables ==> OwnFits(ProgramOf(reg, user), ProgramOf(reg, user).tables[scope])
  {
    ResolvesInProgram(reg, user);
    NamesFitProgram(reg, user);
    RuntimeOfProgram(reg, user);
    OwnOfProgram(reg, user);
  }

  lemma {:induction false} ResolvesInProgram(reg: Registry, user: UserModule)
    requires CleanNames(reg, user)
    ensures WellFormed(ProgramOf(reg, user))
  {
    hide StdTables, UserTables, CleanNames, CodeOf, Keys, Lookup, SymbolsFresh;
    var p := ProgramOf(reg, user);
    forall scope | scope in p.tables
      ensures TablesResolve(p, p.tables[scope])
    {
      match scope
      case User =>
        UserFresh(reg, user);
        forall s: Site, k: Key | Lookup(UserTables(reg, user), s) == Some(Def(k))
          ensures k in p.defs && (k.StdLet? <==> s.GlobalSite?)
        {
          UserResolves(reg, user, s, k);
        }
      case Std(m) =>
        StdFresh(reg, user, m);
        forall s: Site, k: Key | Lookup(StdTables(reg, m), s) == Some(Def(k))
          ensures k in p.defs && (k.StdLet? <==> s.GlobalSite?)
        {
          StdResolves(reg, user, m, s, k);
        }
    }
  }

  lemma {:induction false} UserFresh(reg: Registry, user: UserModule)
    ensures SymbolsFresh(UserTables(reg, user))
  {
  }

  lemma {:induction false} NamesFitProgram(reg: Registry, user: UserModule)
    requires CleanNames(reg, user)
    ensures NamesFit(ProgramOf(reg, user))
  {
    hide CodeOf, TablesOf, Keys, CleanKey, CleanNames, Modules, Implementers;
    var p := ProgramOf(reg, user);
    forall k | k in p.defs
      ensures CleanKey(k)
    {
      KeyClean(reg, user, k);
    }
    forall k1, k2 | k1 in p.defs && k2 in p.defs
      ensures NoFnLetClash(k1, k2)
    {
      KeysClashFree(reg, user, k1, k2);
    }
  }

  lemma {:induction false} KeyClean(reg: Registry, user: UserModule, k: Key)
    requires CleanNames(reg, user) && k in Keys(reg, user)
    ensures CleanKey(k)
  {
    hide Single, Separable;
  }

  lemma {:induction false} KeysClashFree(reg: Registry, user: UserModule, k1: Key, k2: Key)
    requires CleanNames(reg, user) && k1 in Keys(reg, user) && k2 in Keys(reg, user)
    ensures NoFnLetClash(k1, k2)
  {
    hide Single, Separable, CleanName, BodiedMethods;
    if k1.StdFn? && k2.StdLet? {
      assert (k1.owner, k1.name) in reg.fns && (k2.owner, k2.name) in reg.lets;
    }
  }

  lemma {:induction false} RuntimeOfProgram(reg: Registry, user: UserModule)
    ensures RuntimeFits(ProgramOf(reg, user), RuntimeSymbols(reg))
  {
    hide CodeOf, Keys, StdTables, UserTables, Modules, Implementers, RuntimeSymbols;
    var p := ProgramOf(reg, user);
    RuntimeSpelled(reg);
    forall scope, x | scope in p.tables && x in p.tables[scope].bare && p.tables[scope].bare[x].Runtime?
      ensures p.tables[scope].bare[x].sym in RuntimeSymbols(reg)
    {
      if scope == User {
        UserRuntimeNone(reg, user);
      } else {
        StdRuntime(reg, scope.owner);
      }
    }
    forall scope, x | scope in p.tables && x in p.tables[scope].qual && p.tables[scope].qual[x].Runtime?
      ensures p.tables[scope].qual[x].sym in RuntimeSymbols(reg)
    {
      if scope == User {
        UserRuntimeNone(reg, user);
      } else {
        StdRuntime(reg, scope.owner);
      }
    }
  }

  lemma {:induction false} RuntimeSpelled(reg: Registry)
    ensures forall s :: s in RuntimeSymbols(reg) ==> "std." <= s
  {
  }

  lemma {:induction false} UserRuntimeNone(reg: Registry, user: UserModule)
    ensures var t := UserTables(reg, user); t.bare == map[] && forall x :: x in t.qual ==> t.qual[x].Def?
  {
    hide BodiedMethods;
  }

  lemma {:induction false} StdRuntime(reg: Registry, m: string)
    ensures var t := StdTables(reg, m);
      && (forall x :: x in t.bare && t.bare[x].Runtime? ==> t.bare[x].sym in RuntimeSymbols(reg))
      && (forall x :: x in t.qual && t.qual[x].Runtime? ==> t.qual[x].sym in RuntimeSymbols(reg))
  {
    hide BodiedMethods, QualifiedNames, Qualified, CanonicalSymbol;
    var t := StdTables(reg, m);
    forall x | x in t.bare && t.bare[x].Runtime?
      ensures t.bare[x].sym in RuntimeSymbols(reg)
    {
      assert (m, x) in reg.fns;
    }
    forall x | x in t.qual && t.qual[x].Runtime?
      ensures t.qual[x].sym in RuntimeSymbols(reg)
    {
      assert Qualified(x) in reg.fns;
    }
  }

  lemma {:induction false} OwnOfProgram(reg: Registry, user: UserModule)
    ensures var p := ProgramOf(reg, user); forall scope :: scope in p.tables ==> OwnFits(p, p.tables[scope])
  {
  }

  /** The tables a body is rewritten with, whole or cut down to globals, are fresh throughout. */
  lemma {:induction false} ItemAllFresh(reg: Registry, user: UserModule, k: Key)
    requires CleanNames(reg, user) && k in ProgramOf(reg, user).defs
    ensures AllFresh(EmitTables(ProgramOf(reg, user), k))
  {
    hide CleanNames, StdTables, UserTables, CodeOf, Keys, Modules, AllFresh, Implementers;
    var p := ProgramOf(reg, user);
    var t := ScopeTables(p, p.defs[k].scope);
    assert AllFresh(t) by {
      if p.defs[k].scope in p.tables {
        ScopeAllFresh(reg, user, p.defs[k].scope);
      } else {
        NoTablesFresh();
      }
    }
    GlobalsFresh(t);
  }

  lemma {:induction false} ScopeAllFresh(reg: Registry, user: UserModule, scope: Scope)
    requires CleanNames(reg, user)
    ensures AllFresh(TablesOf(reg, user, scope))
  {
    hide AllFresh, CleanNames, StdTables, UserTables;
    match scope
    case User => UserAllFresh(reg, user);
    case Std(m) => StdAllFresh(reg, user, m);
  }

  lemma {:induction false} NoTablesFresh()
    ensures AllFresh(Tables(map[], map[], {}, map[], map[]))
  {
  }

  lemma {:induction false} GlobalsFresh(t: Tables)
    requires AllFresh(t)
    ensures AllFresh(GlobalsOnly(t))
  {
    hide Symbol, TargetSymbol;
  }

  lemma {:induction false} UserAllFresh(reg: Registry, user: UserModule)
    ensures AllFresh(UserTables(reg, user))
  {
    UserFresh(reg, user);
  }

  /** Injection for a registry and a user module: each item once under its symbol, each body linked. */
  method InjectStdlib(reg: Registry, user: UserModule) returns (o: Output)
    requires CleanNames(reg, user)
    ensures o.runtime == RuntimeSymbols(reg) && Holds(ProgramOf(reg, user), Items(ProgramOf(reg, user), Impls(reg)), o)
    ensures AllBodiesLinked(ProgramOf(reg, user), Items(ProgramOf(reg, user), Impls(reg)), o)
  {
    hide CleanNames, Items, Holds, WellFormed, NamesFit, RuntimeFits, CodeOf, TablesOf, OwnFits, AllBodiesLinked;
    ProgramWellFormed(reg, user);
    o := InjectModule(ProgramOf(reg, user), Impls(reg), RuntimeSymbols(reg));
    OutputLinked(reg, user, o);
  }

  /** In the output, every callee and global read is defined or was never known, or sits where the passes do not reach. */
  lemma {:induction false} OutputLinked(reg: Registry, user: UserModule, o: Output)
    requires CleanNames(reg, user) && o.runtime == RuntimeSymbols(reg)
    requires Holds(ProgramOf(reg, user), Items(ProgramOf(reg, user), Impls(reg)), o)
    ensures AllBodiesLinked(ProgramOf(reg, user), Items(ProgramOf(reg, user), Impls(reg)), o)
  {
    hide CleanNames, Items, Holds, WellFormed, NamesFit, RuntimeFits, CodeOf, TablesOf, OwnFits, BodyIn, BodyLinked, AllFresh, EmitTables;
    var p := ProgramOf(reg, user);
    ProgramWellFormed(reg, user);
    forall k | k in Items(p, Impls(reg)) && k in p.defs
      ensures BodyIn(o, k).Some? && BodyLinked(EmitTables(p, k), o, BodyIn(o, k).value, p.defs[k].body)
    {
      ItemAllFresh(reg, user, k);
      BodiesLinked(p, Impls(reg), o, k);
    }
  }

  /**
   For a clean registry, in the module that holds what the injection puts out every user function
   means what it meant in the source, provided that the bodies reached sit where the passes reach.
   */
  lemma {:induction false} UserFunctionsKeepMeaning<D>(sem: Semantics<D>, reg: Registry, user: UserModule, o: Output, depth: nat, f: string)
    requires CleanNames(reg, user) && f in user.fns && o.runtime == RuntimeSymbols(reg)
    requires var p := ProgramOf(reg, user); var items := Items(p, Impls(reg));
      Holds(p, items, o) && ProgramFits(p, items, Symbols(o))
    ensures FnAgrees(sem, ProgramOf(reg, user), o, depth, UserFn(f))
  {
    hide CleanNames, Items, Symbols, Holds, ProgramFits, FnAgrees, WellFormed, NamesFit, RuntimeFits, CodeOf, TablesOf, OwnFits;
    ProgramWellFormed(reg, user);
    assert UserFn(f) in Keys(reg, user);
    InjectionKeepsMeaning(sem, ProgramOf(reg, user), Impls(reg), o, depth, f);
  }
}
