/** The real-valued helpers the models share. */
module Reals {

  function Abs(x: real): (r: real)
    ensures r >= 0.0 && (r == 0.0 <==> x == 0.0) && -r <= x <= r
  {
    if x < 0.0 then -x else x
  }

  function Max(x: real, y: real): (r: real)
    ensures r >= x && r >= y && (r == x || r == y)
  {
    if x < y then y else x
  }

  function Min(x: real, y: real): (r: real)
    ensures r <= x && r <= y && (r == x || r == y)
  {
    if y < x then y else x
  }

  function Clamp(x: real, lo: real, hi: real): (r: real)
    requires lo <= hi
    ensures lo <= r <= hi && (lo <= x <= hi ==> r == x)
  {
    if x < lo then lo else if x > hi then hi else x
  }

  lemma ProductPositive(a: real, b: real, p: real)
    requires a > 0.0 && b > 0.0 && p == a * b
    ensures p > 0.0
  {
  }

  lemma SquarePositive(c: real, p: real)
    requires c != 0.0 && p == c * c
    ensures p > 0.0
  {
    if c > 0.0 {
      ProductPositive(c, c, p);
    } else {
      assert p == (-c) * (-c);
      ProductPositive(-c, -c, p);
    }
  }

  /** A square, kept apart from other products: zero only at zero. */
  ghost function Square(c: real): (r: real)
    ensures r >= 0.0
    ensures r == 0.0 ==> c == 0.0
  {
    if c == 0.0 then 0.0 else SquarePositive(c, c * c); c * c
  }

  /** Of two non-negative numbers the one with the lesser square is the lesser. */
  lemma SquaresOrder(u: real, v: real)
    requires u >= 0.0 && v >= 0.0 && u * u <= v * v
    ensures u <= v
  {
    assert (u - v) * (u + v) == u * u - v * v;
    if u > v {
      ProductPositive(u - v, u + v, (u - v) * (u + v));
    }
  }

  /** What is assumed of the square root of a real. */
  ghost predicate IsSqrt(sqrt: real -> real) {
    forall x: real | x >= 0.0 :: sqrt(x) >= 0.0 && sqrt(x) * sqrt(x) == x
  }

  lemma ScaledWithin(c: real, x: real, m: real, p: real, q: real)
    requires c >= 0.0 && -m <= x <= m && p == c * x && q == c * m
    ensures -q <= p <= q
  {
    assert c * (m - x) >= 0.0 && c * (m + x) >= 0.0;
  }

  /** What is shorter than this has no length to divide by, nor to trim. */
  const LEN_EPS: real := 0.000000001

  lemma Quotient(x: real, d: real)
    requires d != 0.0
    ensures x / d * d == x
  {
  }

  lemma ProductSign(a: real, b: real)
    ensures a > 0.0 && b > 0.0 ==> a * b > 0.0
    ensures a >= 0.0 && b >= 0.0 ==> a * b >= 0.0
  {
  }

  /** The least integer that is not below `x`. */
  function Ceil(x: real): (r: int)
    ensures x <= r as real < x + 1.0
  {
    -((-x).Floor)
  }
}
