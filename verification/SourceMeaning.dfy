/** What the nodes of stdlib and user bodies mean in the source program, told on the registry and the user module. */
module SourceMeaning {

  import opened Demands
  import opened Ir
  import opened Mangle
  import opened Link
  import opened Meaning
  import opened Stdlib
  import opened Wrappers

  lemma {:induction false} FnCode(reg: Registry, user: UserModule, m: string, f: string)
    requires m != "" && f != "" && (m, f) in reg.fns && reg.fns[(m, f)].body.Some?
    ensures var p, e := ProgramOf(reg, user), reg.fns[(m, f)];
      StdFn(m, f) in p.defs && p.defs[StdFn(m, f)] == Code(Std(m), None, e.generics, e.params, e.body.value)
  {
    hide TablesOf, Implementers;
    assert StdFn(m, f) in FnKeys(reg);
  }

  lemma {:induction false} MethodCodeOf(reg: Registry, user: UserModule, k: MethodKey)
    requires Declared(reg, k)
    ensures var p, e := ProgramOf(reg, user), reg.methods[k];
      StdMethod(k) in p.defs && p.defs[StdMethod(k)] == Code(Std(k.owner), Some(TypeGenerics(reg, k)), e.generics, e.params, e.body.value)
  {
    hide TablesOf, Implementers, TypeGenerics;
    assert StdMethod(k) in MethodKeys(reg);
  }

  /** A call of a declared function runs its body, or goes to the runtime where it has none. */
  lemma {:induction false} CallMeans<D>(sem: Semantics<D>, reg: Registry, user: UserModule, depth: nat, scope: Scope, x: Node, m: string, f: string)
    requires InScope(reg, scope) && x.Call? && CalleeNames(reg, scope, x.callee, m, f) && !LocallyBound(x.callee)
    ensures var p, e := ProgramOf(reg, user), reg.fns[(m, f)];
      var ds := BeforeAll(sem, p, depth + 1, scope, x.args);
      match e.body
      case Some(body) =>
        Before(sem, p, depth + 1, scope, x) == RunFree(sem, e.generics, e.params, x.typeArgs, x.argNames, ds, Before(sem, p, depth, Std(m), body))
      case None =>
        scope.Std? ==> Before(sem, p, depth + 1, scope, x) == sem.runtime(CanonicalSymbol(m, f), x.typeArgs, x.argNames, ds)
  {
    hide ProgramOf, TablesOf, CanonicalSymbol;
    ScopeHas(reg, user, scope);
    if scope.Std? || reg.fns[(m, f)].body.Some? {
      NamedTarget(reg, user, scope, x.callee, m, f);
    }
    if reg.fns[(m, f)].body.Some? {
      FnCode(reg, user, m, f);
    }
  }

  /** A call of one of the user's own functions by its name runs its body. */
  lemma {:induction false} OwnCallMeans<D>(sem: Semantics<D>, reg: Registry, user: UserModule, depth: nat, x: Node)
    requires x.Call? && x.callee.Ident? && !IsLocal(x.callee.kind) && x.callee.name in user.fns
    ensures var p, e := ProgramOf(reg, user), user.fns[x.callee.name];
      Before(sem, p, depth + 1, User, x) ==
        RunFree(sem, e.generics, e.params, x.typeArgs, x.argNames, BeforeAll(sem, p, depth + 1, User, x.args), Before(sem, p, depth, User, e.body))
  {
    hide TablesOf, Implementers, ProgramOf;
    ScopeHas(reg, user, User);
    OwnCode(reg, user, x.callee.name);
  }

  lemma {:induction false} OwnCode(reg: Registry, user: UserModule, f: string)
    requires f in user.fns
    ensures var p, e := ProgramOf(reg, user), user.fns[f];
      UserFn(f) in p.defs && p.defs[UserFn(f)] == Code(User, None, e.generics, e.params, e.body)
    ensures var t := TablesOf(reg, user, User); f in t.own && t.own[f] == UserFn(f) && t.bare == map[]
  {
    hide Implementers, StdTables;
  }

  /** The receiver's value brings a method of a concrete type for an interface's method. */
  ghost predicate Brings<D>(sem: Semantics<D>, reg: Registry, user: UserModule, k: MethodKey, d: D) {
    && k in reg.methods && (k.owner, k.typeName) in reg.interfaces && sem.dispatch(d, k).Some?
    && var i := sem.dispatch(d, k).value.key;
    && i.name == k.name
    && ((i in reg.methods && (i.owner, i.typeName) !in reg.interfaces) || (i.owner == "" && (i.typeName, i.name) in user.methods))
  }

  lemma {:induction false} BringsIff<D>(sem: Semantics<D>, reg: Registry, user: UserModule, k: MethodKey, d: D)
    ensures Brings(sem, reg, user, k, d) <==> Overriding(sem, ProgramOf(reg, user), k, d)
  {
    hide Keys, CodeOf, TablesOf, Modules;
    if Brings(sem, reg, user, k, d) {
      var i := sem.dispatch(d, k).value.key;
      assert (i.typeName, i.name).1 == k.name;
      assert i == MethodKey(i.owner, i.typeName, i.name);
    }
  }

  /** A method call runs the method its receiver's value brings, or else the one declared on the receiver's type. */
  lemma {:induction false} MethodMeans<D>(sem: Semantics<D>, reg: Registry, user: UserModule, depth: nat, scope: Scope, x: Node, k: MethodKey)
    requires InScope(reg, scope) && x.MethodCall? && ReceiverOwner(x.recv.ty) == Some((k.owner, k.typeName)) && x.name == k.name && Declared(reg, k)
    ensures var p := ProgramOf(reg, user);
      var d, ds := Before(sem, p, depth + 1, scope, x.recv), BeforeAll(sem, p, depth + 1, scope, x.args);
      var (i, self, args) := if Brings(sem, reg, user, k, d) then var impl := sem.dispatch(d, k).value; (impl.key, impl.self, impl.ownerArgs)
                             else (k, d, OwnerArgs(x.recv.ty));
      Declared(reg, i) ==> var e := reg.methods[i];
        Before(sem, p, depth + 1, scope, x) ==
          RunMethod(sem, Code(Std(i.owner), Some(TypeGenerics(reg, i)), e.generics, e.params, e.body.value), args, x.typeArgs, x.argNames, self, ds,
                    Before(sem, p, depth, Std(i.owner), e.body.value))
  {
    hide ProgramOf, TablesOf, RunMethod, TypeGenerics, Overriding, Declared;
    var p := ProgramOf(reg, user);
    var d := Before(sem, p, depth + 1, scope, x.recv);
    ScopeHas(reg, user, scope);
    MethodsOf(reg, user, scope);
    assert k in BodiedMethods(reg) && k.name != "" by { DeclaredBodied(reg, k); }
    BringsIff(sem, reg, user, k, d);
    MethodCodeOf(reg, user, k);
    if Brings(sem, reg, user, k, d) {
      var impl := sem.dispatch(d, k).value;
      if Declared(reg, impl.key) {
        MethodCodeOf(reg, user, impl.key);
      }
    }
  }

  lemma {:induction false} DeclaredBodied(reg: Registry, k: MethodKey)
    requires Declared(reg, k)
    ensures k in BodiedMethods(reg) && k.name != ""
  {
  }

  /** A read of a global of the same module means what its initialiser means. */
  lemma {:induction false} ReadMeans<D>(sem: Semantics<D>, reg: Registry, user: UserModule, depth: nat, m: string, x: Node)
    requires x.Ident? && x.kind == Global && m != "" && x.name != "" && (m, x.name) in reg.lets
    ensures var p := ProgramOf(reg, user);
      Before(sem, p, depth + 1, Std(m), x) == sem.global(Before(sem, p, depth, Std(m), reg.lets[(m, x.name)]))
  {
    hide ProgramOf, TablesOf;
    assert m in Modules(reg);
    ScopeHas(reg, user, Std(m));
    LetCode(reg, user, m, x.name);
  }

  lemma {:induction false} LetCode(reg: Registry, user: UserModule, m: string, g: string)
    requires m != "" && g != "" && (m, g) in reg.lets
    ensures var p := ProgramOf(reg, user);
      StdLet(m, g) in p.defs && p.defs[StdLet(m, g)] == Code(Std(m), None, [], [], reg.lets[(m, g)])
    ensures var t := TablesOf(reg, user, Std(m)); g in t.globals && t.globals[g] == StdLet(m, g)
  {
    hide Implementers, QualifiedTable, BodiedMethods;
    assert (m, g).1 == g;
  }
}
