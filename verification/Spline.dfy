/**
 The natural cubic spline through cartesian waypoints: the tridiagonal solve for its second
 derivatives, the cubics built from them, and the sampling of their positions.
 */
module Spline {
  import opened Reals
  import opened Wrappers

  ghost predicate Increasing(x: seq<real>) {
    forall i | 0 <= i < |x| - 1 :: x[i] < x[i + 1]
  }

  function Gap(x: seq<real>, i: int): real
    requires 0 <= i < |x| - 1
  {
    x[i + 1] - x[i]
  }

  lemma GapPositive(x: seq<real>, i: int)
    requires Increasing(x) && 0 <= i < |x| - 1
    ensures Gap(x, i) > 0.0
  {
  }

  /** The chord slope of segment `i`. */
  function Chord(x: seq<real>, y: seq<real>, i: int): real
    requires Increasing(x) && |x| == |y| && 0 <= i < |x| - 1
  {
    (y[i + 1] - y[i]) / Gap(x, i)
  }

  /** Left side of the moment equation at interior knot `i`. */
  ghost function MomentSum(x: seq<real>, m: seq<real>, i: int): real
    requires |x| == |m| && 0 < i < |x| - 1
  {
    Gap(x, i - 1) * m[i - 1] + 2.0 * (Gap(x, i - 1) + Gap(x, i)) * m[i] + Gap(x, i) * m[i + 1]
  }

  /** The natural spline's second derivatives: zero at both ends, balanced at every interior knot. */
  ghost predicate Moments(x: seq<real>, y: seq<real>, m: seq<real>)
    requires Increasing(x) && |x| == |y|
  {
    && |m| == |x|
    && (|x| > 0 ==> m[0] == 0.0 && m[|x| - 1] == 0.0)
    && forall i | 0 < i < |x| - 1 :: MomentSum(x, m, i) == MomentTarget(x, y, i)
  }

  // ---------------------------------------------------------- forward elimination

  /** The pivot at row `i` once the row above is eliminated with factor `c`. */
  function Pivot(h0: real, h1: real, c: real): real {
    2.0 * (h0 + h1) - h0 * c
  }

  lemma PivotPositive(h0: real, h1: real, c: real)
    requires h0 > 0.0 && h1 > 0.0 && 0.0 <= c < 1.0
    ensures Pivot(h0, h1, c) > 0.0
    ensures 0.0 <= h1 / Pivot(h0, h1, c) < 1.0
  {
    var p := Pivot(h0, h1, c);
    assert h0 * c <= h0 * 1.0;
    assert p >= h0 + 2.0 * h1;
    QuotientInUnit(h1, p);
  }

  lemma QuotientInUnit(a: real, b: real)
    requires 0.0 <= a < b
    ensures 0.0 <= a / b < 1.0
  {
  }

  /** Right side of the moment equation at interior knot `i`. */
  function MomentTarget(x: seq<real>, y: seq<real>, i: int): real
    requires Increasing(x) && |x| == |y| && 0 < i < |x| - 1
  {
    6.0 * (Chord(x, y, i) - Chord(x, y, i - 1))
  }

  /** Row `i` after elimination: its pivot times the factor, and times the offset. */
  ghost predicate Eliminated(h0: real, h1: real, rhs: real, c0: real, d0: real, c1: real, d1: real) {
    && 0.0 <= c1 < 1.0
    && c1 * Pivot(h0, h1, c0) == h1
    && d1 * Pivot(h0, h1, c0) == rhs - h0 * d0
  }

  ghost predicate RowEliminated(x: seq<real>, y: seq<real>, c: seq<real>, d: seq<real>, i: int)
    requires Increasing(x) && |x| == |y| == |c| == |d| && 0 < i < |x| - 1
  {
    Eliminated(Gap(x, i - 1), Gap(x, i), MomentTarget(x, y, i), c[i - 1], d[i - 1], c[i], d[i])
  }

  /** What the row above leaves of a right side, over the pivot. */
  function Carried(rhs: real, h0: real, d: real, p: real): real
    requires p != 0.0
  {
    (rhs - h0 * d) / p
  }

  lemma Eliminates(h0: real, h1: real, rhs: real, c0: real, d0: real)
    requires h0 > 0.0 && h1 > 0.0 && 0.0 <= c0 < 1.0
    ensures var p := Pivot(h0, h1, c0);
            p > 0.0 && Eliminated(h0, h1, rhs, c0, d0, h1 / p, Carried(rhs, h0, d0, p))
  {
    var p := Pivot(h0, h1, c0);
    PivotPositive(h0, h1, c0);
    Quotient(h1, p);
    Quotient(rhs - h0 * d0, p);
  }

  /** Back-substituting an eliminated row satisfies the row it came from. */
  lemma RowBalances(h0: real, h1: real, rhs: real, c0: real, d0: real, c1: real, d1: real, m0: real, m1: real, m2: real)
    requires Eliminated(h0, h1, rhs, c0, d0, c1, d1)
    requires m0 == d0 - c0 * m1 && m1 == d1 - c1 * m2
    ensures h0 * m0 + 2.0 * (h0 + h1) * m1 + h1 * m2 == rhs
  {
    var p := Pivot(h0, h1, c0);
    assert h0 * m0 == h0 * d0 - h0 * c0 * m1;
    assert h0 * m0 + 2.0 * (h0 + h1) * m1 == h0 * d0 + p * m1;
    assert p * m1 == d1 * p - (c1 * p) * m2;
  }

  function BackStep(d: real, c: real, next: real): real {
    d - c * next
  }

  /** Entry `i` follows from its right neighbour through the eliminated row. */
  ghost predicate BackSubstituted(c: seq<real>, d: seq<real>, m: seq<real>, i: int)
    requires |c| == |d| == |m| && 0 <= i < |m| - 1
  {
    m[i] == BackStep(d[i], c[i], m[i + 1])
  }

  lemma RowsKept(x: seq<real>, y: seq<real>, c: seq<real>, d: seq<real>, c': seq<real>, d': seq<real>, i: int)
    requires |x| == |y| == |c| == |d| == |c'| == |d'| && Increasing(x) && 0 < i < |x| - 1
    requires forall k | 0 < k < i :: RowEliminated(x, y, c, d, k)
    requires forall k | 0 <= k < |x| && k != i :: c'[k] == c[k] && d'[k] == d[k]
    requires Eliminated(Gap(x, i - 1), Gap(x, i), MomentTarget(x, y, i), c[i - 1], d[i - 1], c'[i], d'[i])
    ensures forall k | 0 < k < i + 1 :: RowEliminated(x, y, c', d', k)
    ensures 0.0 <= c'[i] < 1.0
  {
    hide Pivot, MomentTarget;
    forall k | 0 < k < i + 1 ensures RowEliminated(x, y, c', d', k) {
      assert k < i ==> RowEliminated(x, y, c, d, k);
    }
  }

  lemma EntriesKept(c: seq<real>, d: seq<real>, m: seq<real>, m': seq<real>, i: int)
    requires |c| == |d| == |m| == |m'| && 0 <= i < |m| - 1
    requires forall k | i < k < |m| - 1 :: BackSubstituted(c, d, m, k)
    requires forall k | 0 <= k < |m| && k != i :: m'[k] == m[k]
    requires m'[i] == BackStep(d[i], c[i], m[i + 1])
    ensures forall k | i <= k < |m| - 1 :: BackSubstituted(c, d, m', k)
  {
    forall k | i <= k < |m| - 1 ensures BackSubstituted(c, d, m', k) {
      assert k > i ==> BackSubstituted(c, d, m, k);
    }
  }

  lemma SweepsSolve(x: seq<real>, y: seq<real>, c: seq<real>, d: seq<real>, m: seq<real>)
    requires |x| == |y| == |c| == |d| == |m| >= 3 && Increasing(x)
    requires c[0] == 0.0 && d[0] == 0.0 && m[0] == 0.0 && m[|m| - 1] == 0.0
    requires forall k | 0 < k < |x| - 1 :: RowEliminated(x, y, c, d, k) && BackSubstituted(c, d, m, k)
    ensures Moments(x, y, m)
  {
    hide Pivot, Chord, Eliminated, MomentTarget;
    forall i | 0 < i < |x| - 1 ensures MomentSum(x, m, i) == MomentTarget(x, y, i) {
      assert RowEliminated(x, y, c, d, i);
      assert BackSubstituted(c, d, m, i - 1) by {
        if i > 1 {
          assert RowEliminated(x, y, c, d, i - 1);
        }
      }
      RowBalances(Gap(x, i - 1), Gap(x, i), MomentTarget(x, y, i), c[i - 1], d[i - 1], c[i], d[i], m[i - 1], m[i],
                  m[i + 1]);
    }
  }

  /** The moments of the natural spline: one sweep down the tridiagonal system, one back up. */
  method NaturalSplineSecondDerivatives(x: seq<real>, y: seq<real>) returns (r: seq<real>)
    requires |x| == |y| && Increasing(x)
    ensures |r| == |x| && Moments(x, y, r)
  {
    hide Pivot, MomentTarget, Chord, Gap, Eliminated, RowEliminated, BackSubstituted, BackStep, Carried;
    var n := |x|;
    var m := new real[n](_ => 0.0);
    if n < 3 {
      return m[..];
    }
    var c := new real[n](_ => 0.0);
    var d := new real[n](_ => 0.0);
    for i := 1 to n - 1
      invariant c[0] == 0.0 && d[0] == 0.0 && m[0] == 0.0 && m[n - 1] == 0.0
      invariant 0.0 <= c[i - 1] < 1.0
      invariant forall k | 0 < k < i :: RowEliminated(x, y, c[..], d[..], k)
    {
      ghost var c0, d0 := c[..], d[..];
      var h0, h1 := Gap(x, i - 1), Gap(x, i);
      var rhs := MomentTarget(x, y, i);
      GapPositive(x, i - 1);
      GapPositive(x, i);
      Eliminates(h0, h1, rhs, c[i - 1], d[i - 1]);
      var denom := Pivot(h0, h1, c[i - 1]);
      c[i] := h1 / denom;
      d[i] := Carried(rhs, h0, d[i - 1], denom);
      assert c[..] == c0[i := c[i]] && d[..] == d0[i := d[i]];
      RowsKept(x, y, c0, d0, c[..], d[..], i);
    }
    ghost var cs, ds := c[..], d[..];
    assert forall k | 0 < k < n - 1 :: RowEliminated(x, y, cs, ds, k);
    for i := n - 1 downto 1
      invariant m[0] == 0.0 && m[n - 1] == 0.0
      invariant c[..] == cs && d[..] == ds
      invariant forall k | i <= k < n - 1 :: BackSubstituted(cs, ds, m[..], k)
    {
      ghost var later := m[..];
      m[i] := BackStep(d[i], c[i], m[i + 1]);
      assert m[..] == later[i := m[i]];
      EntriesKept(cs, ds, later, m[..], i);
    }
    SweepsSolve(x, y, cs, ds, m[..]);
    r := m[..];
  }

  // ------------------------------------------------------------------ uniqueness

  /** An index where `e` is largest in magnitude. */
  lemma {:induction false} LargestMagnitude(e: seq<real>, n: nat) returns (i: nat)
    requires 0 < n <= |e|
    ensures i < n && forall k | 0 <= k < n :: Abs(e[k]) <= Abs(e[i])
    decreases n
  {
    if n == 1 {
      i := 0;
    } else {
      i := LargestMagnitude(e, n - 1);
      if Abs(e[n - 1]) > Abs(e[i]) {
        i := n - 1;
      }
    }
  }

  /** A balanced row cannot hold the largest magnitude in its middle, unless that is zero. */
  lemma DominantRow(x: seq<real>, e: seq<real>, i: int)
    requires |x| == |e| && Increasing(x) && 0 < i < |x| - 1
    requires MomentSum(x, e, i) == 0.0
    requires Abs(e[i - 1]) <= Abs(e[i]) && Abs(e[i + 1]) <= Abs(e[i])
    ensures e[i] == 0.0
  {
    Outweighed(Gap(x, i - 1), Gap(x, i), e[i - 1], e[i], e[i + 1], Gap(x, i - 1) * e[i - 1],
               2.0 * (Gap(x, i - 1) + Gap(x, i)) * e[i], Gap(x, i) * e[i + 1]);
  }

  lemma Outweighed(h0: real, h1: real, before: real, mid: real, after: real, left: real, middle: real, right: real)
    requires h0 > 0.0 && h1 > 0.0 && Abs(before) <= Abs(mid) && Abs(after) <= Abs(mid)
    requires left == h0 * before && middle == 2.0 * (h0 + h1) * mid && right == h1 * after
    requires left + middle + right == 0.0
    ensures mid == 0.0
  {
    var top := Abs(mid);
    var t0, t1 := h0 * top, h1 * top;
    ScaledWithin(h0, before, top, left, t0);
    ScaledWithin(h1, after, top, right, t1);
    Spread(h0, h1, mid, top, t0, t1, middle);
    Balanced(mid, t0, t1, left, middle, right);
  }

  lemma Balanced(mid: real, t0: real, t1: real, left: real, middle: real, right: real)
    requires -t0 <= left <= t0 && -t1 <= right <= t1 && left + middle + right == 0.0
    requires mid > 0.0 ==> middle == 2.0 * t0 + 2.0 * t1 > t0 + t1
    requires mid < 0.0 ==> middle == -2.0 * t0 - 2.0 * t1 < -t0 - t1
    ensures mid == 0.0
  {
  }

  lemma Spread(h0: real, h1: real, mid: real, top: real, t0: real, t1: real, p: real)
    requires h0 > 0.0 && h1 > 0.0 && top == Abs(mid)
    requires t0 == h0 * top && t1 == h1 * top && p == 2.0 * (h0 + h1) * mid
    ensures mid > 0.0 ==> p == 2.0 * t0 + 2.0 * t1 > t0 + t1
    ensures mid < 0.0 ==> p == -2.0 * t0 - 2.0 * t1 < -t0 - t1
  {
    if mid != 0.0 {
      ProductSign(h0, top);
      ProductSign(h1, top);
    }
  }

  lemma MomentSumMinus(x: seq<real>, m: seq<real>, m': seq<real>, e: seq<real>, i: int)
    requires |x| == |m| == |m'| == |e| && 0 < i < |x| - 1
    requires forall k | 0 <= k < |x| :: e[k] == m[k] - m'[k]
    ensures MomentSum(x, e, i) == MomentSum(x, m, i) - MomentSum(x, m', i)
  {
  }

  /** The natural spline's second derivatives are determined by its waypoints. */
  lemma MomentsUnique(x: seq<real>, y: seq<real>, m: seq<real>, m': seq<real>)
    requires |x| == |y| && Increasing(x)
    requires Moments(x, y, m) && Moments(x, y, m')
    ensures m == m'
  {
    hide MomentSum, MomentTarget;
    var n := |x|;
    if n > 0 {
      var e := seq(n, k requires 0 <= k < n => m[k] - m'[k]);
      var i := LargestMagnitude(e, n);
      if 0 < i < n - 1 {
        MomentSumMinus(x, m, m', e, i);
        DominantRow(x, e, i);
      }
      forall k | 0 <= k < n ensures m[k] == m'[k] {
        assert Abs(e[k]) <= Abs(e[i]);
      }
    }
  }

  // ------------------------------------------------------------------- the cubics

  function CubicBend(h: real, m0: real, m1: real, a: real): real {
    var b := h - a;
    (b * b * b - h * h * b) * m0 + (a * a * a - h * h * a) * m1
  }

  ghost function SlopeBend(h: real, m0: real, m1: real, a: real): real {
    var b := h - a;
    (h * h - 3.0 * (b * b)) * m0 + (3.0 * (a * a) - h * h) * m1
  }

  /** The cubic over a segment of width `h`, at `a` past its start, from end values and second derivatives. */
  function Cubic(h: real, y0: real, y1: real, m0: real, m1: real, a: real): real
    requires h > 0.0
  {
    ((h - a) * y0 + a * y1) / h + CubicBend(h, m0, m1, a) / (6.0 * h)
  }

  ghost function CubicSlope(h: real, y0: real, y1: real, m0: real, m1: real, a: real): real
    requires h > 0.0
  {
    (y1 - y0) / h + SlopeBend(h, m0, m1, a) / (6.0 * h)
  }

  ghost function CubicCurvature(h: real, m0: real, m1: real, a: real): real
    requires h > 0.0
  {
    ((h - a) * m0 + a * m1) / h
  }

  /** A sum of quotients by `h` and by six times `h`, over one denominator. */
  lemma OverSixth(h: real, p: real, q: real, r: real)
    requires h > 0.0 && r == p / h + q / (6.0 * h)
    ensures 6.0 * h * r == 6.0 * p + q
  {
    var u, v := p / h, q / (6.0 * h);
    Quotient(p, h);
    Quotient(q, 6.0 * h);
    assert 6.0 * h * r == 6.0 * (u * h) + v * (6.0 * h);
  }

  lemma CancelSixth(h: real, p: real, q: real)
    requires h > 0.0 && 6.0 * h * p == 6.0 * h * q
    ensures p == q
  {
    assert 6.0 * h * (p - q) == 0.0 == 6.0 * h * (q - p);
    if p > q {
      ProductSign(6.0 * h, p - q);
    } else if p < q {
      ProductSign(6.0 * h, q - p);
    }
  }

  /** The cubic runs through the segment's two waypoints. */
  lemma CubicInterpolates(h: real, y0: real, y1: real, m0: real, m1: real)
    requires h > 0.0
    ensures Cubic(h, y0, y1, m0, m1, 0.0) == y0
    ensures Cubic(h, y0, y1, m0, m1, h) == y1
  {
    assert h * y0 / h == y0;
    assert h * y1 / h == y1;
    assert (h * h * h - h * h * h) * m0 == 0.0;
    assert (h * h * h - h * h * h) * m1 == 0.0;
  }

  /** The slope is the cubic's derivative: the rest of the increment is of second order. */
  lemma SlopeIsDerivative(h: real, y0: real, y1: real, m0: real, m1: real, a: real, e: real)
    requires h > 0.0
    ensures 6.0 * h * (Cubic(h, y0, y1, m0, m1, a + e) - Cubic(h, y0, y1, m0, m1, a)) ==
            6.0 * h * (e * CubicSlope(h, y0, y1, m0, m1, a)) +
            e * e * ((3.0 * (h - a) - e) * m0 + (3.0 * a + e) * m1)
  {
    hide CubicBend, SlopeBend;
    var near, far, slope := Cubic(h, y0, y1, m0, m1, a), Cubic(h, y0, y1, m0, m1, a + e), CubicSlope(h, y0, y1, m0,
        m1, a);
    var here, there := (h - a) * y0 + a * y1, (h - (a + e)) * y0 + (a + e) * y1;
    var rest := e * e * ((3.0 * (h - a) - e) * m0 + (3.0 * a + e) * m1);
    assert there - here == e * (y1 - y0);
    OverSixth(h, here, CubicBend(h, m0, m1, a), near);
    OverSixth(h, there, CubicBend(h, m0, m1, a + e), far);
    OverSixth(h, y1 - y0, SlopeBend(h, m0, m1, a), slope);
    BendIncrement(h, m0, m1, a, e);
    hide Cubic, CubicSlope;
    Increments(e, here, there, y1 - y0, CubicBend(h, m0, m1, a), CubicBend(h, m0, m1, a + e), SlopeBend(h, m0, m1, a),
               rest, 6.0 * h * near, 6.0 * h * far, 6.0 * h * slope);
    Apart(6.0 * h, far, near);
    Swapped(6.0 * h, e, slope);
  }

  lemma Increments(e: real, here: real, there: real, dy: real, bend: real, bent: real, slopeBend: real, rest: real,
                   near: real, far: real, slope: real)
    requires there - here == e * dy && bent - bend == e * slopeBend + rest
    requires near == 6.0 * here + bend && far == 6.0 * there + bent && slope == 6.0 * dy + slopeBend
    ensures far - near == e * slope + rest
  {
    ScaledSum(e, slope, 6.0 * dy, slopeBend);
  }

  lemma Apart(k: real, x: real, y: real)
    ensures k * (x - y) == k * x - k * y
  {
  }

  lemma Swapped(k: real, x: real, y: real)
    ensures k * (x * y) == x * (k * y)
  {
  }

  lemma ScaledSum(e: real, r: real, p: real, q: real)
    requires r == p + q
    ensures e * r == e * p + e * q
  {
  }

  lemma BendIncrement(h: real, m0: real, m1: real, a: real, e: real)
    ensures CubicBend(h, m0, m1, a + e) - CubicBend(h, m0, m1, a) ==
            e * SlopeBend(h, m0, m1, a) + e * e * ((3.0 * (h - a) - e) * m0 + (3.0 * a + e) * m1)
  {
  }

  /** And the curvature is the slope's. */
  lemma CurvatureIsDerivative(h: real, y0: real, y1: real, m0: real, m1: real, a: real, e: real)
    requires h > 0.0
    ensures 2.0 * h * (CubicSlope(h, y0, y1, m0, m1, a + e) - CubicSlope(h, y0, y1, m0, m1, a)) ==
            2.0 * h * (e * CubicCurvature(h, m0, m1, a)) + e * e * (m1 - m0)
  {
    var near, far, curve := CubicSlope(h, y0, y1, m0, m1, a), CubicSlope(h, y0, y1, m0, m1, a + e), CubicCurvature(h,
        m0, m1, a);
    OverSixth(h, y1 - y0, SlopeBend(h, m0, m1, a), near);
    OverSixth(h, y1 - y0, SlopeBend(h, m0, m1, a + e), far);
    Quotient((h - a) * m0 + a * m1, h);
    assert 6.0 * h * (e * curve) == 6.0 * e * (curve * h);
    SlopeBendIncrement(h, m0, m1, a, e);
  }

  lemma SlopeBendIncrement(h: real, m0: real, m1: real, a: real, e: real)
    ensures SlopeBend(h, m0, m1, a + e) - SlopeBend(h, m0, m1, a) ==
            6.0 * e * ((h - a) * m0 + a * m1) + 3.0 * (e * e * (m1 - m0))
  {
  }

  /** The slopes either side of a knot agree exactly when its moment equation holds. */
  lemma SlopesAgree(h0: real, h1: real, y0: real, y1: real, y2: real, m0: real, m1: real, m2: real)
    requires h0 > 0.0 && h1 > 0.0
    ensures CubicSlope(h0, y0, y1, m0, m1, h0) == CubicSlope(h1, y1, y2, m1, m2, 0.0) <==>
            h0 * m0 + 2.0 * (h0 + h1) * m1 + h1 * m2 == 6.0 * ((y2 - y1) / h1 - (y1 - y0) / h0)
  {
    var left, right := CubicSlope(h0, y0, y1, m0, m1, h0), CubicSlope(h1, y1, y2, m1, m2, 0.0);
    var bend0, bend1 := h0 * (m0 + 2.0 * m1), -(h1 * (2.0 * m1 + m2));
    assert SlopeBend(h0, m0, m1, h0) == h0 * bend0;
    assert SlopeBend(h1, m1, m2, 0.0) == h1 * bend1;
    SixthOf(h0, bend0);
    SixthOf(h1, bend1);
    assert 6.0 * (left - right) == 6.0 * ((y1 - y0) / h0 - (y2 - y1) / h1) + bend0 - bend1;
    assert bend0 - bend1 == h0 * m0 + 2.0 * (h0 + h1) * m1 + h1 * m2;
  }

  lemma SixthOf(h: real, q: real)
    requires h > 0.0
    ensures 6.0 * (h * q / (6.0 * h)) == q
  {
    var r := h * q / (6.0 * h);
    Quotient(h * q, 6.0 * h);
    CancelSixth(h, 6.0 * r, q);
  }

  /**
   The cubics built from the moments run through every waypoint, and where two of them meet
   their slopes and curvatures agree.
   */
  lemma SplineIsSmooth(x: seq<real>, y: seq<real>, m: seq<real>, i: int)
    requires |x| == |y| && Increasing(x) && Moments(x, y, m)
    requires 0 < i < |x| - 1
    ensures var h0, h1 := Gap(x, i - 1), Gap(x, i);
            && Cubic(h0, y[i - 1], y[i], m[i - 1], m[i], h0) == y[i] == Cubic(h1, y[i], y[i + 1], m[i], m[i + 1], 0.0)
            && CubicSlope(h0, y[i - 1], y[i], m[i - 1], m[i], h0) == CubicSlope(h1, y[i], y[i + 1], m[i], m[i + 1], 0.0)
            && CubicCurvature(h0, m[i - 1], m[i], h0) == m[i] == CubicCurvature(h1, m[i], m[i + 1], 0.0)
  {
    hide Cubic, CubicSlope;
    var h0, h1 := Gap(x, i - 1), Gap(x, i);
    CubicInterpolates(h0, y[i - 1], y[i], m[i - 1], m[i]);
    CubicInterpolates(h1, y[i], y[i + 1], m[i], m[i + 1]);
    assert MomentSum(x, m, i) == MomentTarget(x, y, i);
    SlopesAgree(h0, h1, y[i - 1], y[i], y[i + 1], m[i - 1], m[i], m[i + 1]);
    EndCurvatures(h0, m[i - 1], m[i]);
    EndCurvatures(h1, m[i], m[i + 1]);
  }

  /** At either end of the path the curvature is nothing. */
  lemma SplineIsNatural(x: seq<real>, y: seq<real>, m: seq<real>)
    requires |x| == |y| >= 2 && Increasing(x) && Moments(x, y, m)
    ensures CubicCurvature(Gap(x, 0), m[0], m[1], 0.0) == 0.0
    ensures var n := |x| - 1; CubicCurvature(Gap(x, n - 1), m[n - 1], m[n], Gap(x, n - 1)) == 0.0
  {
    EndCurvatures(Gap(x, 0), m[0], m[1]);
    EndCurvatures(Gap(x, |x| - 2), m[|x| - 2], m[|x| - 1]);
  }

  lemma EndCurvatures(h: real, m0: real, m1: real)
    requires h > 0.0
    ensures CubicCurvature(h, m0, m1, 0.0) == m0 && CubicCurvature(h, m0, m1, h) == m1
  {
    assert h * m0 / h == m0 && h * m1 / h == m1;
  }

  // ------------------------------------------------------------------ the samples

  const AXES: nat := 3

  type Point = p: seq<real> | |p| == AXES witness [0.0, 0.0, 0.0]

  /** The first `k` measures, summed. */
  ghost function Upto(measure: seq<real>, k: int): real
    requires 0 <= k <= |measure|
  {
    if k == 0 then 0.0 else Upto(measure, k - 1) + measure[k - 1]
  }

  function AxisValues(points: seq<Point>, axis: nat): (r: seq<real>)
    requires axis < AXES
    ensures |r| == |points|
  {
    seq(|points|, i requires 0 <= i < |points| => points[i][axis])
  }

  /** Moments of every axis of the path. */
  ghost predicate PathMoments(knots: seq<real>, points: seq<Point>, moments: seq<seq<real>>) {
    && |knots| == |points| && Increasing(knots) && |moments| == AXES
    && forall axis | 0 <= axis < AXES :: Moments(knots, AxisValues(points, axis), moments[axis])
  }

  /** The path at fraction `t` of segment `seg`. */
  function PointAt(knots: seq<real>, points: seq<Point>, moments: seq<seq<real>>, seg: int, t: real): Point
    requires |knots| == |points| && Increasing(knots) && 0 <= seg < |points| - 1
    requires |moments| == AXES && forall axis | 0 <= axis < AXES :: |moments[axis]| == |points|
  {
    var h := Gap(knots, seg);
    seq(AXES, axis requires 0 <= axis < AXES =>
      Cubic(h, points[seg][axis], points[seg + 1][axis], moments[axis][seg], moments[axis][seg + 1], t * h))
  }

  /** What a fraction of a segment measures. */
  function Share(t: real, d: real): real {
    t * d
  }

  /** `p` lies on segment `seg`, at distance `at` along the whole path's measure. */
  ghost predicate OnSegment(knots: seq<real>, points: seq<Point>, moments: seq<seq<real>>, measure: seq<real>,
                            at: real, p: Point, seg: int, t: real)
    requires PathMoments(knots, points, moments) && |measure| == |points| - 1
  {
    && 0 <= seg < |measure| && 0.0 <= t <= 1.0
    && Upto(measure, seg) <= at <= Upto(measure, seg + 1)
    && (if measure[seg] > 0.0 then Share(t, measure[seg]) == at - Upto(measure, seg) else t == 1.0)
    && p == PointAt(knots, points, moments, seg, t)
  }

  ghost predicate OnPath(knots: seq<real>, points: seq<Point>, moments: seq<seq<real>>, measure: seq<real>,
                         at: real, p: Point)
    requires PathMoments(knots, points, moments) && |measure| == |points| - 1
  {
    exists seg, t :: OnSegment(knots, points, moments, measure, at, p, seg, t)
  }

  /** A segment without measure repeats its waypoint. */
  ghost predicate Metric(points: seq<Point>, measure: seq<real>) {
    && |measure| == |points| - 1
    && forall i | 0 <= i < |measure| :: measure[i] >= 0.0 && (measure[i] == 0.0 ==> points[i] == points[i + 1])
  }

  lemma SegmentEnds(knots: seq<real>, points: seq<Point>, moments: seq<seq<real>>, seg: int)
    requires PathMoments(knots, points, moments) && 0 <= seg < |points| - 1
    ensures PointAt(knots, points, moments, seg, 0.0) == points[seg]
    ensures PointAt(knots, points, moments, seg, 1.0) == points[seg + 1]
  {
    hide Cubic;
    var p, q := PointAt(knots, points, moments, seg, 0.0), PointAt(knots, points, moments, seg, 1.0);
    forall axis | 0 <= axis < AXES ensures p[axis] == points[seg][axis] && q[axis] == points[seg + 1][axis] {
      CubicInterpolates(Gap(knots, seg), points[seg][axis], points[seg + 1][axis], moments[axis][seg],
                        moments[axis][seg + 1]);
    }
  }

  lemma {:induction false} UptoMonotone(measure: seq<real>, j: int, k: int)
    requires 0 <= j <= k <= |measure| && forall i | 0 <= i < |measure| :: measure[i] >= 0.0
    ensures Upto(measure, j) <= Upto(measure, k)
    decreases k
  {
    if j < k {
      UptoMonotone(measure, j, k - 1);
    }
  }

  /** Waypoints between which the measure does not grow coincide. */
  lemma {:induction false} FlatStretch(points: seq<Point>, measure: seq<real>, j: int, k: int)
    requires Metric(points, measure) && 0 <= j <= k <= |measure| && Upto(measure, j) >= Upto(measure, k)
    ensures points[j] == points[k]
    decreases k
  {
    if j < k {
      UptoMonotone(measure, j, k - 1);
      FlatStretch(points, measure, j, k - 1);
    }
  }

  lemma PathStart(knots: seq<real>, points: seq<Point>, moments: seq<seq<real>>, measure: seq<real>, p: Point)
    requires PathMoments(knots, points, moments) && Metric(points, measure) && |points| >= 2
    requires OnPath(knots, points, moments, measure, 0.0, p)
    ensures p == points[0]
  {
    hide PathMoments, PointAt, Share;
    var seg, t :| OnSegment(knots, points, moments, measure, 0.0, p, seg, t);
    SegmentEnds(knots, points, moments, seg);
    UptoMonotone(measure, 0, seg);
    FlatStretch(points, measure, 0, seg);
    if measure[seg] > 0.0 {
      ZeroFactor(t, measure[seg]);
    }
  }

  lemma PathEnd(knots: seq<real>, points: seq<Point>, moments: seq<seq<real>>, measure: seq<real>, p: Point)
    requires PathMoments(knots, points, moments) && Metric(points, measure) && |points| >= 2
    requires OnPath(knots, points, moments, measure, Upto(measure, |measure|), p)
    ensures p == points[|points| - 1]
  {
    hide PathMoments, PointAt, Share;
    var n := |measure|;
    var seg, t :| OnSegment(knots, points, moments, measure, Upto(measure, n), p, seg, t);
    SegmentEnds(knots, points, moments, seg);
    UptoMonotone(measure, seg + 1, n);
    FlatStretch(points, measure, seg + 1, n);
    if measure[seg] > 0.0 {
      assert Upto(measure, seg + 1) == Upto(measure, seg) + measure[seg];
      assert Share(t, measure[seg]) == measure[seg];
      OneFactor(t, measure[seg]);
    }
  }

  lemma ZeroFactor(t: real, d: real)
    requires d > 0.0 && Share(t, d) == 0.0 && t >= 0.0
    ensures t == 0.0
  {
    if t > 0.0 {
      ProductSign(t, d);
    }
  }

  lemma OneFactor(t: real, d: real)
    requires d > 0.0 && Share(t, d) == d && t <= 1.0
    ensures t == 1.0
  {
    if t < 1.0 {
      ProductSign(1.0 - t, d);
    }
  }

  /** Where sample `k` of `steps` lies along a path of measure `total`. */
  function SampleAt(total: real, k: int, steps: int): real
    requires steps > 0
  {
    total * k as real / steps as real
  }

  lemma SampleOrder(total: real, k: int, steps: int)
    requires total >= 0.0 && 0 <= k <= steps && steps > 0
    ensures 0.0 <= SampleAt(total, k, steps) <= total
    ensures k == 0 ==> SampleAt(total, k, steps) == 0.0
    ensures k == steps ==> SampleAt(total, k, steps) == total
    ensures k > 0 ==> SampleAt(total, k - 1, steps) <= SampleAt(total, k, steps)
  {
    var s := steps as real;
    ShareOrder(total, 0.0, k as real, s);
    ShareOrder(total, k as real, s, s);
    assert total * 0.0 / s == 0.0;
    assert total * s / s == total;
    if k > 0 {
      ShareOrder(total, (k - 1) as real, k as real, s);
    }
  }

  /** Samples are evenly apart. */
  lemma SamplesEven(total: real, k: int, steps: int)
    requires steps > 0
    ensures SampleAt(total, k + 1, steps) - SampleAt(total, k, steps) == total / steps as real
  {
    var s, x := steps as real, total * k as real;
    assert total * (k + 1) as real == x + total;
    Quotient(x, s);
    Quotient(total, s);
    assert (x / s + total / s) * s == x + total;
    QuotientUnique(x + total, s, x / s + total / s);
  }

  lemma QuotientUnique(p: real, s: real, q: real)
    requires s > 0.0 && q * s == p
    ensures p / s == q
  {
  }

  lemma ShareOrder(total: real, x: real, y: real, s: real)
    requires total >= 0.0 && s > 0.0 && x <= y
    ensures total * x / s <= total * y / s
  {
    var p, q := total * x, total * y;
    assert total * (y - x) >= 0.0;
    assert total * (y - x) == q - p;
    QuotientOrder(p, q, s);
  }

  lemma QuotientOrder(p: real, q: real, s: real)
    requires s > 0.0 && p <= q
    ensures p / s <= q / s
  {
    var u, v := p / s, q / s;
    Quotient(p, s);
    Quotient(q, s);
    if u > v {
      ProductSign(u - v, s);
    }
  }

  datatype SplineError = TooFewWaypoints | SamePose

  /** Knots as far apart as their waypoints, but never closer than the least length. */
  method ChordKnots(lengths: seq<real>) returns (knots: seq<real>)
    ensures |knots| == |lengths| + 1 && knots[0] == 0.0
    ensures forall i | 0 <= i < |lengths| :: knots[i + 1] - knots[i] == Max(lengths[i], LEN_EPS)
    ensures Increasing(knots)
  {
    knots := [0.0];
    for i := 0 to |lengths|
      invariant |knots| == i + 1 && knots[0] == 0.0
      invariant forall k | 0 <= k < i :: knots[k + 1] - knots[k] == Max(lengths[k], LEN_EPS)
    {
      knots := knots + [knots[i] + Max(lengths[i], LEN_EPS)];
    }
    assert forall i | 0 <= i < |lengths| :: knots[i + 1] - knots[i] >= LEN_EPS;
  }

  method Total(measure: seq<real>) returns (total: real)
    ensures total == Upto(measure, |measure|)
  {
    total := 0.0;
    for i := 0 to |measure|
      invariant total == Upto(measure, i)
    {
      total := total + measure[i];
    }
  }

  /** How many sampling intervals the path takes. */
  function Intervals(total: real, step: real, maxPoints: nat): (r: int)
    requires step > 0.0
    ensures 1 <= r
  {
    var wanted := Ceil(total / step);
    var least := if wanted < 1 then 1 else wanted;
    var most := (if maxPoints < 2 then 2 else maxPoints) - 1;
    if least < most then least else most
  }

  /**
   The intervals keep the pitch unless the point budget does not let them, stay within the budget,
   and are never more than the pitch takes.
   */
  lemma IntervalsKeepPitch(total: real, step: real, maxPoints: nat)
    requires step > 0.0
    ensures var n, budget := Intervals(total, step, maxPoints), if maxPoints < 2 then 2 else maxPoints;
            && n + 1 <= budget
            && (n + 1 < budget ==> total <= n as real * step)
            && (n > 1 ==> (n - 1) as real * step < total)
  {
    Quotient(total, step);
    var ratio := total / step;
    var n := Intervals(total, step, maxPoints);
    var wanted := Ceil(ratio);
    assert ratio * step == total;
    if wanted <= n {
      StepsOrder(ratio, n as real, step);
    }
    if n > 1 {
      assert (n - 1) as real < ratio;
      ProductPositive(ratio - (n - 1) as real, step, (ratio - (n - 1) as real) * step);
    }
  }

  lemma StepsOrder(x: real, y: real, step: real)
    requires x <= y && step > 0.0
    ensures x * step <= y * step
  {
    ProductSign(y - x, step);
    assert (y - x) * step == y * step - x * step;
  }

  /** Walk on to the segment holding distance `at`, and the fraction of it there. */
  method Locate(measure: seq<real>, at: real, seg0: int, start0: real) returns (seg: int, start: real, t: real)
    requires (forall i | 0 <= i < |measure| :: measure[i] >= 0.0) && at <= Upto(measure, |measure|)
    requires 0 <= seg0 < |measure| && start0 == Upto(measure, seg0) <= at
    ensures seg0 <= seg < |measure| && start == Upto(measure, seg) <= at <= Upto(measure, seg + 1)
    ensures 0.0 <= t <= 1.0 && if measure[seg] > 0.0 then Share(t, measure[seg]) == at - start else t == 1.0
  {
    hide Share;
    seg, start := seg0, start0;
    while seg + 1 < |measure| && at > start + measure[seg]
      invariant seg0 <= seg < |measure| && start == Upto(measure, seg) <= at
      decreases |measure| - seg
    {
      start := start + measure[seg];
      seg := seg + 1;
    }
    assert Upto(measure, seg + 1) == start + measure[seg];
    t := 1.0;
    if measure[seg] > 0.0 {
      FractionInUnit(at - start, measure[seg]);
      t := Clamp((at - start) / measure[seg], 0.0, 1.0);
    }
  }

  function Straight(a: Point, b: Point, t: real): Point {
    seq(AXES, axis requires 0 <= axis < AXES => a[axis] + t * (b[axis] - a[axis]))
  }

  /** Intervals of a single segment that asks for `asked` of them. */
  function LineIntervals(asked: nat, maxPoints: nat): (n: nat)
    requires asked >= 1
    ensures n >= 1
  {
    var most := if maxPoints < 2 then 1 else maxPoints - 1;
    if asked < most then asked else most
  }

  /** All that is asked for, or all the point budget lets it have. */
  lemma LineIntervalsAre(asked: nat, maxPoints: nat)
    requires asked >= 1
    ensures var n, budget := LineIntervals(asked, maxPoints), if maxPoints < 2 then 2 else maxPoints;
            n <= asked && n + 1 <= budget && (n == asked || n + 1 == budget)
  {
  }

  method LinePositions(a: Point, b: Point, asked: nat, maxPoints: nat) returns (out: seq<Point>)
    requires asked >= 1
    ensures var n := LineIntervals(asked, maxPoints);
            |out| == n + 1 && forall k | 0 <= k <= n :: out[k] == Straight(a, b, k as real / n as real)
  {
    var n := LineIntervals(asked, maxPoints);
    out := [];
    for k := 0 to n + 1
      invariant |out| == k && forall i | 0 <= i < k :: out[i] == Straight(a, b, i as real / n as real)
    {
      out := out + [Straight(a, b, k as real / n as real)];
    }
  }

  /** No moments. */
  ghost function Unbent(): (moments: seq<seq<real>>) {
    seq(AXES, _ => [0.0, 0.0])
  }

  /** Between two waypoints the natural spline is the straight line. */
  lemma LineIsSpline(knots: seq<real>, points: seq<Point>, t: real)
    requires |knots| == |points| == 2 && Increasing(knots)
    ensures PathMoments(knots, points, Unbent())
    ensures PointAt(knots, points, Unbent(), 0, t) == Straight(points[0], points[1], t)
  {
    var h, p, q := Gap(knots, 0), PointAt(knots, points, Unbent(), 0, t), Straight(points[0], points[1], t);
    hide Cubic;
    forall axis | 0 <= axis < AXES ensures p[axis] == q[axis] {
      UnbentCubic(h, points[0][axis], points[1][axis], t);
    }
  }

  lemma UnbentCubic(h: real, y0: real, y1: real, t: real)
    requires h > 0.0
    ensures Cubic(h, y0, y1, 0.0, 0.0, t * h) == y0 + t * (y1 - y0)
  {
    var y := y0 + t * (y1 - y0);
    assert (h - t * h) * y0 + t * h * y1 == y * h;
    assert y * h / h == y;
  }

  /** A line's samples are its two waypoints and points of the spline between them. */
  lemma LineSamples(knots: seq<real>, points: seq<Point>, out: seq<Point>, n: nat)
    requires |knots| == |points| == 2 && Increasing(knots) && n >= 1 && |out| == n + 1
    requires forall k | 0 <= k <= n :: out[k] == Straight(points[0], points[1], k as real / n as real)
    ensures PathMoments(knots, points, Unbent()) && out[0] == points[0] && out[n] == points[1]
    ensures forall k | 0 <= k <= n :: out[k] == PointAt(knots, points, Unbent(), 0, k as real / n as real)
  {
    hide PointAt, Straight, Unbent;
    forall k | 0 <= k <= n ensures out[k] == PointAt(knots, points, Unbent(), 0, k as real / n as real) {
      LineIsSpline(knots, points, k as real / n as real);
    }
    LineIsSpline(knots, points, 0.0);
    assert 0 as real / n as real == 0.0 && n as real / n as real == 1.0;
    StraightEnds(points[0], points[1]);
  }

  lemma StraightEnds(a: Point, b: Point)
    ensures Straight(a, b, 0.0) == a && Straight(a, b, 1.0) == b
  {
  }

  /**
   The positions of the natural spline through the waypoints. Three or more are sampled evenly along
   the metric: `lengths` are the chords, `measure` the chords with the rotation folded in. Two are a
   line of the `asked` intervals its length and rotation call for.
   */
  method SplinePositions(points: seq<Point>, lengths: seq<real>, measure: seq<real>, step: real, asked: nat,
                         maxPoints: nat)
    returns (r: Result<seq<Point>, SplineError>, ghost knots: seq<real>, ghost moments: seq<seq<real>>)
    requires |points| >= 2 ==> |lengths| == |points| - 1 && Metric(points, measure)
    requires step > 0.0 && asked >= 1
    ensures r == Err(TooFewWaypoints) <==> |points| < 2
    ensures r == Err(SamePose) <==> |points| >= 3 && Upto(measure, |measure|) < LEN_EPS
    ensures |points| >= 2 ==> PathMoments(knots, points, moments)
    ensures |points| >= 2 ==>
              forall i | 0 <= i < |lengths| :: knots[i + 1] - knots[i] == Max(lengths[i], LEN_EPS)
    ensures |points| == 2 ==>
              var n := LineIntervals(asked, maxPoints);
              && r.Ok? && |r.value| == n + 1 && r.value[0] == points[0] && r.value[n] == points[1]
              && forall k | 0 <= k <= n :: r.value[k] == PointAt(knots, points, moments, 0, k as real / n as real)
    ensures |points| >= 3 && r.Ok? ==>
              var total, steps := Upto(measure, |measure|), Intervals(Upto(measure, |measure|), step, maxPoints);
              && |r.value| == steps + 1
              && r.value[0] == points[0] && r.value[steps] == points[|points| - 1]
              && forall k | 0 <= k <= steps ::
                   OnPath(knots, points, moments, measure, SampleAt(total, k, steps), r.value[k])
  {
    hide Cubic, SampleAt, Intervals, PointAt, Moments;
    var n := |points|;
    if n < 2 {
      return Err(TooFewWaypoints), [], [];
    }
    if n == 2 {
      var line := LinePositions(points[0], points[1], asked, maxPoints);
      ghost var ends := [0.0, Max(lengths[0], LEN_EPS)];
      LineSamples(ends, points, line, LineIntervals(asked, maxPoints));
      return Ok(line), ends, Unbent();
    }
    var x := ChordKnots(lengths);
    knots := x;
    var second: seq<seq<real>> := [];
    for axis := 0 to AXES
      invariant |second| == axis
      invariant forall i | 0 <= i < axis :: |second[i]| == n && Moments(x, AxisValues(points, i), second[i])
    {
      var m := NaturalSplineSecondDerivatives(x, AxisValues(points, axis));
      second := second + [m];
    }
    moments := second;
    var total := Total(measure);
    if total < LEN_EPS {
      return Err(SamePose), knots, moments;
    }
    var steps := Intervals(total, step, maxPoints);
    var out: seq<Point> := [];
    var seg, start := 0, 0.0;
    SampleOrder(total, 0, steps);
    for k := 0 to steps + 1
      invariant 0 <= seg < n - 1 && start == Upto(measure, seg)
      invariant start <= SampleAt(total, k, steps) || k > steps
      invariant k == 0 ==> start == 0.0
      invariant |out| == k
      invariant forall i | 0 <= i < k :: OnPath(x, points, second, measure, SampleAt(total, i, steps), out[i])
    {
      SampleOrder(total, k, steps);
      var at := SampleAt(total, k, steps);
      var t;
      seg, start, t := Locate(measure, at, seg, start);
      var p := PointAt(x, points, second, seg, t);
      assert OnSegment(x, points, second, measure, at, p, seg, t);
      out := out + [p];
      if k < steps {
        SampleOrder(total, k + 1, steps);
      }
    }
    SampleOrder(total, 0, steps);
    SampleOrder(total, steps, steps);
    PathStart(x, points, second, measure, out[0]);
    PathEnd(x, points, second, measure, out[steps]);
    r := Ok(out);
  }

  lemma FractionInUnit(p: real, d: real)
    requires d > 0.0 && 0.0 <= p <= d
    ensures 0.0 <= p / d <= 1.0 && Share(p / d, d) == p
  {
    QuotientOrder(0.0, p, d);
    QuotientOrder(p, d, d);
    Quotient(p, d);
  }
}
