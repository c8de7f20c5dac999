/** The least set that holds given roots and is closed under a finite successor relation. */
module Reachability {

  /** A walk along successors that starts at a root and stays inside the relation's domain. */
  ghost predicate Chain<K>(succ: map<K, set<K>>, roots: set<K>, p: seq<K>) {
    && p != [] && p[0] in roots
    && (forall i :: 0 <= i < |p| ==> p[i] in succ)
    && (forall i :: 0 < i < |p| ==> p[i] in succ[p[i - 1]])
  }

  ghost function Closure<K(!new)>(succ: map<K, set<K>>, roots: set<K>): set<K> {
    set k | k in succ && exists p :: Chain(succ, roots, p) && p[|p| - 1] == k
  }

  ghost predicate Closed<K>(succ: map<K, set<K>>, s: set<K>) {
    forall k :: k in s && k in succ ==> forall m :: m in succ[k] && m in succ ==> m in s
  }

  ghost predicate Seeded<K>(succ: map<K, set<K>>, roots: set<K>, s: set<K>) {
    forall k :: k in roots && k in succ ==> k in s
  }

  lemma {:induction false} ClosureStarts<K(!new)>(succ: map<K, set<K>>, roots: set<K>, k: K)
    requires k in roots && k in succ
    ensures k in Closure(succ, roots)
  {
    assert Chain(succ, roots, [k]);
  }

  lemma {:induction false} ClosureExtends<K(!new)>(succ: map<K, set<K>>, roots: set<K>, k: K, m: K)
    requires k in Closure(succ, roots) && m in succ[k] && m in succ
    ensures m in Closure(succ, roots)
  {
    var p :| Chain(succ, roots, p) && p[|p| - 1] == k;
    var q := p + [m];
    forall i | 0 < i < |q|
      ensures q[i] in succ[q[i - 1]]
    {
      assert i < |p| ==> p[i] in succ[p[i - 1]];
    }
    assert Chain(succ, roots, q);
  }

  lemma {:induction false} ChainInside<K>(succ: map<K, set<K>>, roots: set<K>, s: set<K>, p: seq<K>)
    requires Chain(succ, roots, p) && Seeded(succ, roots, s) && Closed(succ, s)
    ensures p[|p| - 1] in s
  {
    if |p| > 1 {
      ChainInside(succ, roots, s, p[..|p| - 1]);
      assert p[|p| - 1] in succ[p[|p| - 2]];
    }
  }

  /** The closure is seeded, closed, and inside every set that is. */
  lemma {:induction false} ClosureIsLeast<K(!new)>(succ: map<K, set<K>>, roots: set<K>)
    ensures Seeded(succ, roots, Closure(succ, roots)) && Closed(succ, Closure(succ, roots))
    ensures forall s :: Seeded(succ, roots, s) && Closed(succ, s) ==> Closure(succ, roots) <= s
  {
    forall k | k in roots && k in succ
      ensures k in Closure(succ, roots)
    {
      ClosureStarts(succ, roots, k);
    }
    forall k, m | k in Closure(succ, roots) && m in succ[k] && m in succ
      ensures m in Closure(succ, roots)
    {
      ClosureExtends(succ, roots, k, m);
    }
    forall s, k | Seeded(succ, roots, s) && Closed(succ, s) && k in Closure(succ, roots)
      ensures k in s
    {
      var p :| Chain(succ, roots, p) && p[|p| - 1] == k;
      ChainInside(succ, roots, s, p);
    }
  }
}
