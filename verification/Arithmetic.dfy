// The little arithmetic and counting that the models need.
module Arithmetic {

  lemma MulLess(x: int, y: int, n: nat)
    requires x * n < y * n
    ensures x < y
  {
    assert (y - x) * n > 0;
  }

  lemma MulMono(n: nat, x: nat, y: nat)
    requires x <= y
    ensures n * x <= n * y
  {
    assert n * (y - x) >= 0;
  }

  lemma SubsetCard(a: set<nat>, b: set<nat>)
    requires a <= b
    ensures |a| <= |b|
  {
    assert b == a + (b - a);
  }

  lemma DivBounds(x: nat, d: nat)
    requires d > 0
    ensures x / d * d <= x < x / d * d + d
  {
  }

  lemma DivUnique(x: nat, d: nat, q: nat)
    requires d > 0 && q * d <= x < q * d + d
    ensures x / d == q
  {
    DivBounds(x, d);
    var e := x / d;
    assert (e + 1) * d == e * d + d && (q + 1) * d == q * d + d;
    MulLess(q, e + 1, d);
    MulLess(e, q + 1, d);
  }

  lemma DivMonotone(x: nat, y: nat, d: nat)
    requires d > 0 && x <= y
    ensures x / d <= y / d
  {
    DivBounds(x, d);
    DivBounds(y, d);
    assert (y / d + 1) * d == y / d * d + d;
    MulLess(x / d, y / d + 1, d);
  }
}
