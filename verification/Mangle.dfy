/** Emitted symbols of injected stdlib items. */
module Mangle {

  function StdlibSymbol(module_: string, name: string): string {
    "osty_std_" + module_ + "__" + name
  }

  function StdlibMethodSymbol(module_: string, typeName: string, method_: string): string {
    "osty_std_" + module_ + "__" + typeName + "__" + method_
  }

  /** The runtime symbol of a declaration without a body. */
  function CanonicalSymbol(module_: string, name: string): string {
    "std." + module_ + "." + name
  }

  /** One symbol of each family. */
  lemma {:induction false} SymbolsSpelled()
    ensures StdlibSymbol("strings", "trim") == "osty_std_strings__trim"
    ensures StdlibMethodSymbol("option", "Option", "map") == "osty_std_option__Option__map"
    ensures CanonicalSymbol("strings", "trim") == "std.strings.trim"
  {
  }

  ghost predicate DoubleAt(s: string, i: int) {
    0 <= i < |s| - 1 && s[i] == '_' && s[i + 1] == '_'
  }

  /** A segment without a double underscore. */
  ghost predicate Single(s: string) {
    forall i :: !DoubleAt(s, i)
  }

  /** A segment that may be followed by the separator: it also does not end in an underscore. */
  ghost predicate Separable(s: string) {
    Single(s) && (s != "" ==> s[|s| - 1] != '_')
  }

  /** The separator after a separable segment is the first double underscore. */
  lemma {:induction false} FirstDouble(a: string, rest: string)
    requires Separable(a)
    ensures DoubleAt(a + "__" + rest, |a|)
    ensures forall i :: i < |a| ==> !DoubleAt(a + "__" + rest, i)
  {
    var s := a + "__" + rest;
    forall i | i < |a|
      ensures !DoubleAt(s, i)
    {
      assert !DoubleAt(a, i);
    }
  }

  lemma {:induction false} SplitUnique(a: string, x: string, b: string, y: string)
    requires Separable(a) && Separable(b) && a + "__" + x == b + "__" + y
    ensures a == b && x == y
  {
    FirstDouble(a, x);
    FirstDouble(b, y);
    var s := a + "__" + x;
    assert |a| == |b|;
    assert a == s[..|a|] == b;
    assert x == s[|a| + 2..] == y;
  }

  lemma {:induction false} DropPrefix(p: string, x: string, y: string)
    requires p + x == p + y
    ensures x == y
  {
    assert x == (p + x)[|p|..] == (p + y)[|p|..] == y;
  }

  /** Distinct free functions get distinct symbols. */
  lemma {:induction false} FnSymbolsInjective(m1: string, f1: string, m2: string, f2: string)
    requires Separable(m1) && Separable(m2) && StdlibSymbol(m1, f1) == StdlibSymbol(m2, f2)
    ensures m1 == m2 && f1 == f2
  {
    assert StdlibSymbol(m1, f1) == "osty_std_" + (m1 + "__" + f1);
    assert StdlibSymbol(m2, f2) == "osty_std_" + (m2 + "__" + f2);
    DropPrefix("osty_std_", m1 + "__" + f1, m2 + "__" + f2);
    SplitUnique(m1, f1, m2, f2);
  }

  /** Distinct methods get distinct symbols. */
  lemma {:induction false} MethodSymbolsInjective(m1: string, t1: string, f1: string, m2: string, t2: string, f2: string)
    requires Separable(m1) && Separable(m2) && Separable(t1) && Separable(t2)
    requires StdlibMethodSymbol(m1, t1, f1) == StdlibMethodSymbol(m2, t2, f2)
    ensures m1 == m2 && t1 == t2 && f1 == f2
  {
    var r1, r2 := t1 + "__" + f1, t2 + "__" + f2;
    assert StdlibMethodSymbol(m1, t1, f1) == "osty_std_" + (m1 + "__" + r1);
    assert StdlibMethodSymbol(m2, t2, f2) == "osty_std_" + (m2 + "__" + r2);
    DropPrefix("osty_std_", m1 + "__" + r1, m2 + "__" + r2);
    SplitUnique(m1, r1, m2, r2);
    SplitUnique(t1, f1, t2, f2);
  }

  /** A free function and a method never share a symbol. */
  lemma {:induction false} FnAndMethodSymbolsDiffer(m1: string, f: string, m2: string, t: string, g: string)
    requires Separable(m1) && Separable(m2) && Single(f)
    ensures StdlibSymbol(m1, f) != StdlibMethodSymbol(m2, t, g)
  {
    var r := t + "__" + g;
    if StdlibSymbol(m1, f) == StdlibMethodSymbol(m2, t, g) {
      assert StdlibSymbol(m1, f) == "osty_std_" + (m1 + "__" + f);
      assert StdlibMethodSymbol(m2, t, g) == "osty_std_" + (m2 + "__" + r);
      DropPrefix("osty_std_", m1 + "__" + f, m2 + "__" + r);
      SplitUnique(m1, f, m2, r);
      assert DoubleAt(r, |t|);
    }
  }

  /** Without the condition on trailing underscores two items collide. */
  lemma {:induction false} UnderscoreCollision()
    ensures StdlibSymbol("a_", "b") == StdlibSymbol("a", "_b")
    ensures Single("a_") && Single("b") && Single("a") && Single("_b")
  {
  }

  lemma {:induction false} LongerModule(m1: string, f1: string, m2: string, f2: string)
    requires Single(m2) && |m1| < |m2| && StdlibSymbol(m1, f1) == StdlibSymbol(m2, f2)
    ensures m2 == m1 + "_"
  {
    assert StdlibSymbol(m1, f1) == "osty_std_" + (m1 + "__" + f1);
    assert StdlibSymbol(m2, f2) == "osty_std_" + (m2 + "__" + f2);
    DropPrefix("osty_std_", m1 + "__" + f1, m2 + "__" + f2);
    var s := m1 + "__" + f1;
    assert s[|m1|] == '_' && s[|m1| + 1] == '_';
    assert m1 == s[..|m1|] && m2 == s[..|m2|];
    assert !DoubleAt(m2, |m1|);
  }

  lemma {:induction false} SameLengthModule(m1: string, f1: string, m2: string, f2: string)
    requires StdlibSymbol(m1, f1) == StdlibSymbol(m2, f2)
    ensures |m1| == |m2| ==> m1 == m2
  {
    var s := StdlibSymbol(m1, f1);
    assert m1 == s[9..9 + |m1|] && m2 == s[9..9 + |m2|];
  }

  /** Functions of two modules can collide exactly when one module is the other with an underscore added. */
  lemma {:induction false} ModulesCollideIff(m1: string, m2: string)
    requires Single(m1) && Single(m2) && m1 != m2
    ensures (exists f1, f2 :: StdlibSymbol(m1, f1) == StdlibSymbol(m2, f2)) <==> m2 == m1 + "_" || m1 == m2 + "_"
  {
    forall f1, f2 | StdlibSymbol(m1, f1) == StdlibSymbol(m2, f2)
      ensures m2 == m1 + "_" || m1 == m2 + "_"
    {
      SameLengthModule(m1, f1, m2, f2);
      if |m1| < |m2| {
        LongerModule(m1, f1, m2, f2);
      } else {
        LongerModule(m2, f2, m1, f1);
      }
    }
    if m2 == m1 + "_" {
      assert StdlibSymbol(m1, "_b") == "osty_std_" + m1 + "___b" == StdlibSymbol(m2, "b");
    }
    if m1 == m2 + "_" {
      assert StdlibSymbol(m1, "b") == "osty_std_" + m2 + "___b" == StdlibSymbol(m2, "_b");
    }
  }

  /** Injected symbols and runtime symbols are told apart by their first letter. */
  lemma {:induction false} InjectedNotRuntime(m1: string, x: string, m2: string, y: string)
    ensures StdlibSymbol(m1, x) != CanonicalSymbol(m2, y)
  {
    assert StdlibSymbol(m1, x)[0] == 'o' && CanonicalSymbol(m2, y)[0] == 's';
  }
}
