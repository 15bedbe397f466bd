/** Facts about products and quotients. */
module Arithmetic {
  // ----- integers -----

  lemma MultiplyOrder(a: int, b: int, g: nat)
    requires a <= b
    ensures a * g <= b * g
  {
  }

  lemma NonNegativeProduct(a: nat, b: nat)
    ensures a * b >= 0
  {
  }

  lemma ScaleOrder(x: int, y: int, c: int)
    requires c > 0
    ensures c * x < c * y <==> x < y
    ensures c * x == c * y <==> x == y
  {
    assert c * y - c * x == c * (y - x);
  }

  // ----- reals -----

  lemma ProductOrder(x: real, y: real, d: real)
    requires d > 0.0
    ensures x * d < y * d <==> x < y
    ensures x * d <= y * d <==> x <= y
  {
    assert y * d - x * d == (y - x) * d;
  }

  lemma CancelFactor(u: real, v: real, m: real)
    requires m > 0.0 && u * m == v * m
    ensures u == v
  {
    ProductOrder(u, v, m);
    ProductOrder(v, u, m);
  }

  lemma QuotientTimes(x: real, d: real)
    requires d > 0.0
    ensures x / d * d == x
  {
  }

  lemma QuotientOrder(x: real, d: real, t: real)
    requires d > 0.0
    ensures x / d < t <==> x < t * d
    ensures t < x / d <==> t * d < x
  {
    QuotientTimes(x, d);
    ProductOrder(x / d, t, d);
    ProductOrder(t, x / d, d);
  }

  lemma QuotientSign(x: real, d: real)
    requires d > 0.0
    ensures x / d > 0.0 <==> x > 0.0
    ensures x / d == 0.0 <==> x == 0.0
  {
    QuotientOrder(x, d, 0.0);
  }
}
