/** Order facts about multiplying and dividing by a positive real, stated
    once so the solver never has to rediscover them inside a larger proof. */
module RealArith {

  /** A positive factor keeps the sign of the other one. */
  lemma ProductSign(a: real, d: real)
    requires d > 0.0
    ensures a > 0.0 <==> a * d > 0.0
    ensures a == 0.0 <==> a * d == 0.0
  {
  }

  /** Multiplying both sides by a positive `d` keeps their order. */
  lemma MulOrder(a: real, b: real, d: real)
    requires d > 0.0
    ensures a <= b <==> a * d <= b * d
    ensures a < b <==> a * d < b * d
  {
    assert b * d - a * d == (b - a) * d;
    ProductSign(b - a, d);
  }

  /** Dividing by a positive `d` keeps the order with a product by `d`. */
  lemma DivOrder(a: real, b: real, d: real)
    requires d > 0.0
    ensures a <= b * d <==> a / d <= b
    ensures a < b * d <==> a / d < b
    ensures b * d <= a <==> b <= a / d
    ensures b * d < a <==> b < a / d
  {
    assert a / d * d == a;
    MulOrder(a / d, b, d);
    MulOrder(b, a / d, d);
  }

  /** Scaling by a positive `d` preserves the order between `y` and the
      bounds `q` and `q + 1`. */
  lemma Scale(q: real, y: real, d: real, x: real)
    requires d > 0.0 && x == y * d
    ensures q <= y <==> q * d <= x
    ensures y < q + 1.0 <==> x < q * d + d
    ensures q < y <==> q * d < x
    ensures y <= q + 1.0 <==> x <= q * d + d
  {
    assert x - q * d == (y - q) * d;
    assert q * d + d - x == (q + 1.0 - y) * d;
    ProductSign(y - q, d);
    ProductSign(q + 1.0 - y, d);
  }

  /** A quotient `v = a / p` of a value bracketed by `p <= a < c * p` lies
      in `[1, c)`. */
  lemma QuotientInRange(v: real, p: real, a: real, c: real)
    requires p > 0.0 && v * p == a && p <= a < c * p
    ensures 1.0 <= v < c
  {
    MulOrder(1.0, v, p);
    MulOrder(v, c, p);
  }

  /** Dividing a product by one of its positive factors gives the other. */
  lemma CancelFactor(m: real, p: real)
    requires p > 0.0
    ensures m * p / p == m
  {
  }
}
