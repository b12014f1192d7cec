/** Sums over the values of a map, independent of the order of traversal: the engine's loops run
    over unordered maps, so what they compute must not depend on the order. */
module MapSum {

  /** The sum of `f` over the values of `m`, taken in an arbitrary order. */
  ghost function Sum<K, V>(m: map<K, V>, f: V -> real): real
    decreases |m|
  {
    if m == map[] then 0.0
    else
      var k :| k in m;
      f(m[k]) + Sum(m - {k}, f)
  }

  /** Any key may be the first. */
  lemma {:induction false} SumRemove<K, V>(m: map<K, V>, f: V -> real, k: K)
    requires k in m
    ensures Sum(m, f) == f(m[k]) + Sum(m - {k}, f)
    decreases |m|
  {
    var c :| c in m && Sum(m, f) == f(m[c]) + Sum(m - {c}, f);
    if c != k {
      SumRemove(m - {c}, f, k);
      SumRemove(m - {k}, f, c);
      assert m - {c} - {k} == m - {k} - {c};
    }
  }

  /** What a value contributes to the sum, zero for an absent key. */
  ghost function At<K, V>(m: map<K, V>, f: V -> real, k: K): real
  {
    if k in m then f(m[k]) else 0.0
  }

  lemma SumUpdate<K, V>(m: map<K, V>, f: V -> real, k: K, v: V)
    ensures Sum(m[k := v], f) == Sum(m, f) - At(m, f, k) + f(v)
  {
    SumRemove(m[k := v], f, k);
    assert m[k := v] - {k} == m - {k};
    if k in m {
      SumRemove(m, f, k);
    } else {
      assert m - {k} == m;
    }
  }

  /** Pointwise sums add up. */
  lemma {:induction false} SumAdd<K, V>(m: map<K, V>, f: V -> real, g: V -> real, h: V -> real)
    requires forall k :: k in m ==> h(m[k]) == f(m[k]) + g(m[k])
    ensures Sum(m, h) == Sum(m, f) + Sum(m, g)
    decreases |m|
  {
    if m != map[] {
      var k :| k in m;
      SumRemove(m, f, k);
      SumRemove(m, g, k);
      SumRemove(m, h, k);
      SumAdd(m - {k}, f, g, h);
    }
  }
}
