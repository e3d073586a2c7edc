/** Facts of arithmetic the other modules rest on, each on variables alone. */
module Arithmetic {
  function Max(a: int, b: int): int {
    if a >= b then a else b
  }

  function MaxReal(a: real, b: real): real {
    if a >= b then a else b
  }

  lemma MulPositive(a: nat, b: nat)
    requires a > 0 && b > 0
    ensures a * b > 0
  {}

  lemma MulOrder(a: nat, b: nat, m: nat)
    requires a <= b
    ensures a * m <= b * m
  {}

  lemma Distribute(a: int, b: int, c: int)
    ensures (a + b) * c == a * c + b * c
  {}

  lemma DivideSelf(w: real)
    requires w != 0.0
    ensures w / w == 1.0 && 0.0 / w == 0.0
  {
    var r, z := w / w, 0.0 / w;
    assert r * w == w && z * w == 0.0;
    assert (r - 1.0) * w == 0.0;
  }

  lemma DivideOrder(a: real, b: real, w: real)
    requires w > 0.0 && a <= b
    ensures a / w <= b / w
    ensures a < b ==> a / w < b / w
  {
    var p, q := a / w, b / w;
    assert p * w == a && q * w == b;
  }

  lemma ScaleOrder(a: real, b: real, m: real)
    requires m >= 0.0 && a <= b
    ensures a * m <= b * m
    ensures a < b && m > 0.0 ==> a * m < b * m
  {}

  lemma CancelFactor(v: real, w: real, d: real)
    requires d != 0.0 && v * d == w * d
    ensures v == w
  {
    assert (v - w) * d == 0.0;
  }

  lemma CancelQuotient(a: real, d: real)
    requires d != 0.0
    ensures a / d * d == a
  {}

  lemma ScaledQuotient(a: real, d: real)
    requires d != 0.0
    ensures a * d / d == a
  {
    CancelQuotient(a * d, d);
    CancelFactor(a * d / d, a, d);
  }

  lemma CommonFactor(a: real, m: real, n: real)
    requires m != 0.0 && n != 0.0 && n * m != 0.0
    ensures a * m / (n * m) == a / n
  {
    var p, q := a * m / (n * m), a / n;
    CancelQuotient(a * m, n * m);
    CancelQuotient(a, n);
    assert q * (n * m) == q * n * m == a * m;
    CancelFactor(p, q, n * m);
  }

  lemma QuotientTimes(a: real, w: real, m: real)
    requires w != 0.0
    ensures a / w * m == m / w * a
  {
    var p, q := a / w * m, m / w * a;
    CancelQuotient(a, w);
    CancelQuotient(m, w);
    assert p * w == a / w * w * m == a * m;
    assert q * w == m / w * w * a == a * m;
    assert (p - q) * w == 0.0;
  }

  lemma ProductNonNegative(a: real, b: real)
    requires a >= 0.0 && b >= 0.0
    ensures a * b >= 0.0
  {}

  lemma ProductOrder(a: real, b: real, h: real, k: real)
    requires a < b && 0.0 < h <= k && a * h >= 0.0
    ensures a * h < b * k
  {
    assert a * h < b * h;
    assert b > 0.0;
    assert b * h <= b * k;
  }

  lemma SignOfProduct(a: real, b: real)
    requires b > 0.0
    ensures a > 0.0 <==> a * b > 0.0
    ensures a == 0.0 <==> a * b == 0.0
  {}

  lemma SumOfFractions(a: int, b: int, c: int)
    requires c != 0
    ensures a as real / c as real + b as real / c as real == (a + b) as real / c as real
  {}

  lemma QuotientOf(p: real, d: real) returns (w: real)
    requires d != 0.0
    ensures w * d == p
  {
    w := p / d;
  }

  lemma QuotientIs(p: real, w: real, d: real)
    requires d != 0.0 && p == w * d
    ensures p / d == w
  {
    var q := p / d;
    assert q * d == p;
    CancelFactor(q, w, d);
  }

  lemma SubsetSize<T>(a: set<T>, b: set<T>)
    requires a <= b
    ensures |a| <= |b|
  {
    assert b == a + (b - a);
  }
}
