/** Arithmetic facts, mostly about products and quotients, that the models share. */
module Arithmetic {

  function AbsInt(x: int): nat { if x < 0 then -x else x }

  function MaxInt(a: int, b: int): int { if a > b then a else b }

  function Abs(x: real): real { if x < 0.0 then -x else x }

  function Max(a: real, b: real): real { if a < b then b else a }

  function Min(a: real, b: real): real { if a < b then a else b }

  function Ratio(x: real, y: real): real
    requires y > 0.0
  {
    x / y
  }

  lemma RatioOrder(x: real, y: real, c: real)
    requires y > 0.0
    ensures (x < c * y <==> Ratio(x, y) < c) && (x > c * y <==> Ratio(x, y) > c)
  {
    var q := Ratio(x, y);
    assert q * y == x;
    var d := c - q;
    assert d * y == c * y - x;
    assert d > 0.0 ==> d * y > 0.0;
    assert d < 0.0 ==> d * y < 0.0;
    assert d == 0.0 ==> d * y == 0.0;
  }

  lemma Product(a: real, b: real)
    requires a >= 0.0 && b >= 0.0
    ensures a * b >= 0.0
  {
  }

  lemma Quotient(q: real, d: real, n: real)
    requires d != 0.0 && q * d == n
    ensures n / d == q
  {
  }

  lemma TimesDivisor(x: real, y: real)
    requires y != 0.0
    ensures (x / y) * y == x
  {
  }

  lemma Distributes(a: real, b: real, c: real)
    ensures (a - b) * c == a * c - b * c
  {
  }

  lemma Scaled(u: real, r: real, scale: real)
    requires scale > 0.0
    ensures u > r <==> u * scale > r * scale
    ensures (-u) * scale == -(u * scale)
  {
    var d := u - r;
    assert d * scale == u * scale - r * scale;
    assert d > 0.0 ==> d * scale > 0.0;
    assert d <= 0.0 ==> d * scale <= 0.0;
  }

  lemma ScaledInts(a: int, b: int, p: int)
    requires a <= b && p > 0
    ensures a * p <= b * p
  {
    assert (b - a) * p >= 0;
  }

  /** Going the share `u` of the way from share `t0` to share `t1`. */
  lemma Shares(t0: real, t1: real, u: real, a: real, d: real)
    ensures a + t0 * d + u * (a + t1 * d - (a + t0 * d)) == a + (t0 + u * (t1 - t0)) * d
  {
  }
}
