/** Comparisons of relative deviations, as the price checks compute them. */
module Reals {
  import opened Records

  lemma SameSign(x: real, y: real)
    requires y > 0.0
    ensures x * y > 0.0 <==> x > 0.0
  {
  }

  lemma DivCompare(y: real, n: real, k: real)
    requires n > 0.0
    ensures y / n > k <==> y - k * n > 0.0
  {
    var d := y / n;
    assert d * n == y;
    assert (d - k) * n == d * n - k * n;
    SameSign(d - k, n);
  }

  lemma Band(x: real, c: real, w: real)
    ensures AbsReal(x - c) - w > 0.0 <==> !(c - w <= x <= c + w)
  {
  }

  /** A relative deviation exceeds `k` exactly outside the band around the centre. */
  lemma Deviation(x: real, c: real, k: real)
    requires c > 0.0
    ensures AbsReal(x - c) / c > k <==> !(c - k * c <= x <= c + k * c)
  {
    DivCompare(AbsReal(x - c), c, k);
    Band(x, c, k * c);
  }
}
