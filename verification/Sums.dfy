/** Weighted sums over finite maps. */
module Sums {

  /** The total weight of a map's values. */
  ghost function Sum<K(!new), V(!new)>(m: map<K, V>, w: V -> nat): nat {
    if m == map[] then 0 else
      var k :| k in m;
      w(m[k]) + Sum(m - {k}, w)
  }

  /** The sum does not depend on the order keys are taken in. */
  lemma {:induction false} SumWithout<K(!new), V(!new)>(m: map<K, V>, k: K, w: V -> nat)
    requires k in m
    ensures Sum(m, w) == w(m[k]) + Sum(m - {k}, w)
    decreases |m|
  {
    var c :| c in m && Sum(m, w) == w(m[c]) + Sum(m - {c}, w);
    if c != k {
      SumWithout(m - {c}, k, w);
      SumWithout(m - {k}, c, w);
      assert m - {c} - {k} == m - {k} - {c};
    }
  }

  /** Removing a key that may be absent removes that key's weight. */
  lemma SumRemove<K(!new), V(!new)>(m: map<K, V>, k: K, w: V -> nat)
    ensures Sum(m, w) == Sum(m - {k}, w) + if k in m then w(m[k]) else 0
  {
    if k in m {
      SumWithout(m, k, w);
    } else {
      assert m - {k} == m;
    }
  }

  /** Setting a key replaces that key's weight. */
  lemma SumUpdate<K(!new), V(!new)>(m: map<K, V>, k: K, v: V, w: V -> nat)
    ensures Sum(m[k := v], w) + (if k in m then w(m[k]) else 0) == Sum(m, w) + w(v)
  {
    SumWithout(m[k := v], k, w);
    SumRemove(m, k, w);
    assert m[k := v] - {k} == m - {k};
  }

  /** Weights that add up for every value add up in total. */
  lemma {:induction false} SumSplits<K(!new), V(!new)>(m: map<K, V>, w: V -> nat, u: V -> nat, v: V -> nat)
    requires forall k :: k in m ==> w(m[k]) == u(m[k]) + v(m[k])
    ensures Sum(m, w) == Sum(m, u) + Sum(m, v)
    decreases |m|
  {
    if m != map[] {
      var k :| k in m;
      SumSplits(m - {k}, w, u, v);
      SumWithout(m, k, w);
      SumWithout(m, k, u);
      SumWithout(m, k, v);
    }
  }

  /** What weighs anything in a map weighs at least as much in another one. */
  lemma {:induction false} SumAtMost<K(!new), V(!new)>(a: map<K, V>, b: map<K, V>, w: V -> nat, v: V -> nat)
    requires forall k :: k in a && w(a[k]) > 0 ==> k in b && w(a[k]) <= v(b[k])
    ensures Sum(a, w) <= Sum(b, v)
    decreases |a|
  {
    if a != map[] {
      var k :| k in a;
      SumAtMost(a - {k}, b - {k}, w, v);
      SumWithout(a, k, w);
      SumRemove(b, k, v);
    }
  }
}
