/**
 What a fit does with its samples, said of the samples themselves: units do not matter, the ridge
 is relative, torques a model explains are explained, and errors are in the torques' unit.
 */
module GravityLaws {
  import opened GravityFit
  import opened LeastSquares
  import opened LinearAlgebra
  import opened Reals
  import opened Cholesky

  // ------------------------------------------------------------------ other units

  /** A product kept by its name. */
  function Times(c: real, x: real): real {
    c * x
  }

  function TimesAll(c: real, s: seq<real>): (r: seq<real>)
    ensures |r| == |s| && forall i | 0 <= i < |s| :: r[i] == Times(c, s[i])
  {
    seq(|s|, i requires 0 <= i < |s| => Times(c, s[i]))
  }

  function TimesRows(c: real, rows: Rows): (r: Rows)
    ensures |r| == |rows| && forall t | 0 <= t < |rows| :: r[t] == TimesAll(c, rows[t])
  {
    seq(|rows|, t requires 0 <= t < |rows| => TimesAll(c, rows[t]))
  }

  /** The same measurements in another unit of torque. */
  function InUnits(c: real, samples: seq<Sample>): (r: seq<Sample>)
    ensures |r| == |samples|
    ensures forall k | 0 <= k < |samples| :: r[k] == Sample(TimesRows(c, samples[k].y), TimesAll(c, samples[k].tau))
  {
    seq(|samples|, k requires 0 <= k < |samples| => Sample(TimesRows(c, samples[k].y), TimesAll(c, samples[k].tau)))
  }

  lemma InUnitsValid(c: real, n: nat, samples: seq<Sample>)
    requires ValidSamples(n, samples)
    ensures ValidSamples(n, InUnits(c, samples))
  {
    forall k | 0 <= k < |samples| ensures ValidSample(n, InUnits(c, samples)[k]) {
      assert ValidSample(n, samples[k]);
    }
  }

  lemma {:induction false} StackedInUnits(c: real, samples: seq<Sample>)
    ensures Stacked(InUnits(c, samples)) == TimesRows(c, Stacked(samples))
    ensures Torques(InUnits(c, samples)) == TimesAll(c, Torques(samples))
    decreases |samples|
  {
    if samples != [] {
      var last := |samples| - 1;
      StackedInUnits(c, samples[..last]);
      assert InUnits(c, samples)[..last] == InUnits(c, samples[..last]);
      var rows, more := Stacked(samples[..last]), samples[last].y;
      RowsJoin(c, rows, more);
      AllJoin(c, Torques(samples[..last]), samples[last].tau);
    }
  }

  lemma RowsJoin(c: real, a: Rows, b: Rows)
    ensures TimesRows(c, a + b) == TimesRows(c, a) + TimesRows(c, b)
  {
    hide TimesAll;
  }

  lemma AllJoin(c: real, a: seq<real>, b: seq<real>)
    ensures TimesAll(c, a + b) == TimesAll(c, a) + TimesAll(c, b)
  {
    hide Times;
  }

  lemma AbsTimes(c: real, x: real)
    requires c >= 0.0
    ensures Abs(Times(c, x)) == Times(c, Abs(x))
  {
    ProductSign(c, Abs(x));
    assert c * -x == -(c * x);
  }

  lemma MaxTimes(c: real, x: real, y: real)
    requires c >= 0.0
    ensures Max(Times(c, x), Times(c, y)) == Times(c, Max(x, y))
  {
    ProductSign(c, Abs(y - x));
    Minuend(c, y, x);
    Minuend(c, x, y);
  }

  lemma {:induction false} PeakTimes(c: real, row: seq<real>, peak: real, k: nat)
    requires c >= 0.0 && k <= |row|
    ensures RowPeak(TimesAll(c, row), Times(c, peak), k) == Times(c, RowPeak(row, peak, k))
    decreases k
  {
    hide Times;
    if k > 0 {
      PeakTimes(c, row, peak, k - 1);
      AbsTimes(c, row[k - 1]);
      MaxTimes(c, RowPeak(row, peak, k - 1), Abs(row[k - 1]));
    }
  }

  lemma {:induction false} ScaleTimes(c: real, rows: Rows)
    requires c >= 0.0
    ensures Scale(TimesRows(c, rows)) == Times(c, Scale(rows))
    decreases |rows|
  {
    hide TimesAll;
    if rows != [] {
      var init, last := rows[..|rows| - 1], rows[|rows| - 1];
      ScaleTimes(c, init);
      assert TimesRows(c, rows)[..|rows| - 1] == TimesRows(c, init);
      hide Times;
      PeakTimes(c, last, Scale(init), |last|);
    } else {
      assert Times(c, 0.0) == 0.0;
    }
  }

  /** The weight grows with the square of the unit. */
  lemma LambdaTimes(c: real, rows: Rows, ridge: real)
    requires c >= 0.0
    ensures Lambda(TimesRows(c, rows), ridge) == Times(Times(c, c), Lambda(rows, ridge))
  {
    hide Scale, TimesRows;
    ScaleTimes(c, rows);
    WeightingTimes(c, ridge, Scale(rows), |rows|);
    SameCount(c, rows);
  }

  lemma SameCount(c: real, rows: Rows)
    ensures |TimesRows(c, rows)| == |rows|
  {
  }

  lemma WeightingTimes(c: real, ridge: real, s: real, k: nat)
    ensures Weighting(ridge, Times(c, s), k) == Times(Times(c, c), Weighting(ridge, s, k))
  {
    var count := k as real;
    assert ridge * (c * s) * (c * s) * count == c * c * (ridge * s * s * count);
  }

  lemma RegressorTimes(c: real, rows: Rows, t: int, a: int)
    ensures Regressor(TimesRows(c, rows))(t)(a) == Times(c, Regressor(rows)(t)(a))
  {
    assert Times(c, 0.0) == 0.0;
  }

  lemma {:induction false} DotTimes(n: int, c: real, d: real, u: Vec, v: Vec, x: Vec, y: Vec)
    requires forall i | 0 <= i < n :: x(i) == Times(c, u(i)) && y(i) == Times(d, v(i))
    ensures Dot(n, x, y) == Times(Times(c, d), Dot(n, u, v))
    decreases n
  {
    if n > 0 {
      DotTimes(n - 1, c, d, u, v, x, y);
      Spread(c, d, Dot(n - 1, u, v), u(n - 1), v(n - 1));
    }
  }

  lemma Spread(c: real, d: real, p: real, q: real, r: real)
    ensures Times(Times(c, d), p) + Times(c, q) * Times(d, r) == Times(Times(c, d), p + q * r)
  {
    assert (c * q) * (d * r) == c * d * (q * r);
  }

  ghost predicate Multiplied(k: int, c: real, v: Vec, w: Vec) {
    forall t | 0 <= t < k :: w(t) == Times(c, v(t))
  }

  lemma ImageTimes(n: int, c: real, rows: Rows, x: Vec, t: int)
    ensures MulVec(n, Regressor(TimesRows(c, rows)), x)(t) == Times(c, MulVec(n, Regressor(rows), x)(t))
  {
    hide Dot, TimesRows;
    forall a | 0 <= a < n
      ensures Regressor(TimesRows(c, rows))(t)(a) == Times(c, Regressor(rows)(t)(a)) && x(a) == Times(1.0, x(a))
    {
      RegressorTimes(c, rows, t, a);
    }
    DotTimes(n, c, 1.0, Regressor(rows)(t), x, Regressor(TimesRows(c, rows))(t), x);
  }

  /** Costs are in the square of the unit. */
  lemma CostTimes(n: int, c: real, rows: Rows, res: Vec, other: Vec, weight: real, x: Vec)
    requires Multiplied(|rows|, c, res, other)
    ensures Cost(n, TimesRows(c, rows), other, Times(Times(c, c), weight), x) ==
            Times(Times(c, c), Cost(n, rows, res, weight, x))
  {
    hide Dot, Times;
    var miss, missed := Minus(res, MulVec(n, Regressor(rows), x)), Minus(other, MulVec(n, Regressor(TimesRows(c,
        rows)), x));
    forall t | 0 <= t < |rows| ensures missed(t) == Times(c, miss(t)) {
      ImageTimes(n, c, rows, x, t);
      Minuend(c, res(t), MulVec(n, Regressor(rows), x)(t));
    }
    DotTimes(|rows|, c, c, miss, miss, missed, missed);
    var k, p, q := Times(c, c), Misfit(n, rows, res, x), NormSq(n, x);
    assert Misfit(n, TimesRows(c, rows), other, x) == Times(k, p);
    Summed(k, p, weight, q);
    assert Cost(n, rows, res, weight, x) == p + weight * q;
    assert Cost(n, TimesRows(c, rows), other, Times(k, weight), x) == Times(k, p) + Times(k, weight) * q;
  }

  lemma Minuend(c: real, x: real, y: real)
    ensures Times(c, x) - Times(c, y) == Times(c, x - y)
  {
  }

  lemma Summed(k: real, p: real, w: real, q: real)
    ensures Times(k, p) + Times(k, w) * q == Times(k, p + w * q)
  {
    assert k * w * q == k * (w * q);
  }

  lemma RidgedTimes(c: real, rows: Rows, weight: real, i: int, j: int)
    ensures Ridged(Normal(TimesRows(c, rows)), Times(Times(c, c), weight))(i)(j) ==
            Times(Times(c, c), Ridged(Normal(rows), weight)(i)(j))
  {
    hide Dot, Times;
    var k, u, v := |rows|, Transpose(Regressor(rows)), Transpose(Regressor(TimesRows(c, rows)));
    forall t | 0 <= t < k ensures v(i)(t) == Times(c, u(i)(t)) && v(j)(t) == Times(c, u(j)(t)) {
      RegressorTimes(c, rows, t, i);
      RegressorTimes(c, rows, t, j);
    }
    DotTimes(k, c, c, u(i), u(j), v(i), v(j));
    Summed(Times(c, c), Normal(rows)(i)(j), weight, 1.0);
  }

  lemma ShareTimes(n: int, c: real, k: real, rows: Rows, weight: real, a: int, d: real)
    requires k == Times(c, c) && k > 0.0 && IsShare(n, rows, weight, a, d)
    ensures IsShare(n, TimesRows(c, rows), Times(k, weight), a, d)
  {
    hide Dot, Normal, TimesRows, Times;
    var w: Vec :| ShareWitness(n, rows, weight, a, d, w);
    var inverse := 1.0 / k;
    var v := ScaledBy(inverse, w);
    var m, other := Ridged(Normal(rows), weight), Ridged(Normal(TimesRows(c, rows)), Times(k, weight));
    forall i | 0 <= i < n ensures MulVec(n, other, v)(i) == Unit(a)(i) {
      forall j | 0 <= j < n ensures other(i)(j) == Times(k, m(i)(j)) {
        RidgedTimes(c, rows, weight, i, j);
      }
      DotTimes(n, k, inverse, m(i), w, other(i), v);
      assert MulVec(n, m, w)(i) == Unit(a)(i);
      Undone(k, inverse, Unit(a)(i));
    }
    Cancelled(k, weight, inverse, w(a));
    assert ShareWitness(n, TimesRows(c, rows), Times(k, weight), a, d, v);
  }

  ghost function ScaledBy(c: real, v: Vec): Vec {
    i => Times(c, v(i))
  }

  lemma Undone(k: real, inverse: real, x: real)
    requires k != 0.0 && inverse == 1.0 / k
    ensures Times(Times(k, inverse), x) == x
  {
    Quotient(1.0, k);
  }

  lemma Cancelled(k: real, weight: real, inverse: real, x: real)
    requires k != 0.0 && inverse == 1.0 / k
    ensures Times(k, weight) * Times(inverse, x) == weight * x
  {
    Quotient(1.0, k);
    assert k * weight * (inverse * x) == (inverse * k) * (weight * x);
  }

  lemma UnexcitedTimes(c: real, rows: Rows, a: int)
    requires c > 0.0
    ensures Unexcited(TimesRows(c, rows), a) <==> Unexcited(rows, a)
  {
    hide Times;
    forall t | 0 <= t < |rows| ensures Regressor(TimesRows(c, rows))(t)(a) == 0.0 <==> Regressor(rows)(t)(a) == 0.0 {
      RegressorTimes(c, rows, t, a);
      OrderTimes(c, Regressor(rows)(t)(a), 0.0);
    }
  }

  lemma OrderTimes(k: real, x: real, y: real)
    requires k > 0.0
    ensures x <= y <==> Times(k, x) <= Times(k, y)
    ensures x == y <==> Times(k, x) == Times(k, y)
    ensures Times(k, 0.0) == 0.0
  {
    var d := Times(k, y) - Times(k, x);
    assert d == k * (y - x);
    if x < y {
      ProductPositive(k, y - x, d);
    } else if y < x {
      assert -d == k * (x - y);
      ProductPositive(k, x - y, -d);
    }
  }

  lemma SquarePast(c: real)
    requires c > 0.0
    ensures Times(c, c) > 0.0
  {
    ProductPositive(c, c, Times(c, c));
  }

  /** Whatever rows and residuals are measured in, the same parameters and scores are identified. */
  lemma IdentifiesTimes(n: int, c: real, rows: Rows, res: Vec, other: Vec, ridge: real, theta: seq<real>,
                        determined: seq<real>)
    requires c > 0.0 && Multiplied(|rows|, c, res, other)
    requires Identifies(n, rows, res, Lambda(rows, ridge), theta, determined)
    ensures Identifies(n, TimesRows(c, rows), other, Lambda(TimesRows(c, rows), ridge), theta, determined)
  {
    hide Dot, Cost, IsShare, Unexcited, Lambda, TimesRows, SameVec, Times, Multiplied;
    var weight, more, k := Lambda(rows, ridge), TimesRows(c, rows), Times(c, c);
    LambdaTimes(c, rows, ridge);
    SquarePast(c);
    OrderTimes(k, weight, 0.0);
    forall x: Vec
      ensures Cost(n, more, other, Times(k, weight), VecOf(theta)) <= Cost(n, more, other, Times(k, weight), x)
      ensures Cost(n, more, other, Times(k, weight), x) == Cost(n, more, other, Times(k, weight), VecOf(theta)) ==>
                SameVec(n, x, VecOf(theta))
    {
      CostTimes(n, c, rows, res, other, weight, x);
      CostTimes(n, c, rows, res, other, weight, VecOf(theta));
      OrderTimes(k, Cost(n, rows, res, weight, VecOf(theta)), Cost(n, rows, res, weight, x));
    }
    forall a | 0 <= a < n
      ensures IsShare(n, more, Times(k, weight), a, determined[a])
      ensures Unexcited(more, a) <==> Unexcited(rows, a)
    {
      ShareTimes(n, c, k, rows, weight, a, determined[a]);
      UnexcitedTimes(c, rows, a);
    }
  }

  lemma ResidualTimes(n: int, c: real, rows: Rows, tau: seq<real>, theta: Vec, t: int)
    ensures Residual(n, TimesRows(c, rows), TimesAll(c, tau), theta)(t) == Times(c, Residual(n, rows, tau, theta)(t))
  {
    hide Dot, TimesRows;
    ImageTimes(n, c, rows, theta, t);
    TorqueTimes(c, tau, t);
    Minuend(c, VecOf(tau)(t), MulVec(n, Regressor(rows), theta)(t));
  }

  lemma TorqueTimes(c: real, tau: seq<real>, t: int)
    ensures VecOf(TimesAll(c, tau))(t) == Times(c, VecOf(tau)(t))
  {
    assert Times(c, 0.0) == 0.0;
  }

  /** The unit of torque does not matter to the arm's correction and scores ... */
  lemma ArmInUnits(c: real, samples: seq<Sample>, baseline: seq<real>, ridge: real, correction: seq<real>,
                   determined: seq<real>)
    requires c > 0.0 && ArmIdentified(samples, baseline, ridge, correction, determined)
    ensures ArmIdentified(InUnits(c, samples), baseline, ridge, correction, determined)
  {
    hide Identifies, Residual, Stacked, Torques, TimesRows, TimesAll, InUnits, Times, Lambda;
    var n, rows := |baseline|, Stacked(samples);
    StackedInUnits(c, samples);
    forall t | 0 <= t < |rows|
      ensures ArmResidual(InUnits(c, samples), baseline)(t) == Times(c, ArmResidual(samples, baseline)(t))
    {
      ResidualTimes(n, c, rows, Torques(samples), VecOf(baseline), t);
    }
    IdentifiesTimes(n, c, rows, ArmResidual(samples, baseline), ArmResidual(InUnits(c, samples), baseline), ridge,
                    correction, determined);
  }

  /** ... nor to the payload's. */
  lemma PayloadInUnits(c: real, samples: seq<Sample>, unloaded: seq<real>, ridge: real, theta: seq<real>,
                       determined: seq<real>)
    requires |unloaded| >= 4 && ValidSamples(|unloaded|, samples)
    requires c > 0.0 && PayloadIdentified(samples, unloaded, ridge, theta, determined)
    ensures ValidSamples(|unloaded|, InUnits(c, samples))
    ensures PayloadIdentified(InUnits(c, samples), unloaded, ridge, theta, determined)
  {
    InUnitsValid(c, |unloaded|, samples);
    hide Identifies, Residual, Stacked, Torques, InUnits, ValidSamples, PayloadRows, TimesRows, TimesAll, Times, Lambda;
    var n, rows := |unloaded|, Stacked(samples);
    StackedInUnits(c, samples);
    StackedAt(n, samples, 0, 0);
    forall t | 0 <= t < |rows|
      ensures PayloadResidual(InUnits(c, samples), unloaded)(t) == Times(c, PayloadResidual(samples, unloaded)(t))
    {
      ResidualTimes(n, c, rows, Torques(samples), VecOf(unloaded), t);
    }
    TailsTimes(c, samples, n);
    IdentifiesTimes(4, c, PayloadRows(samples, n), PayloadResidual(samples, unloaded),
                    PayloadResidual(InUnits(c, samples), unloaded), ridge, theta, determined);
  }

  lemma TailsTimes(c: real, samples: seq<Sample>, n: nat)
    requires n >= 4 && ValidSamples(n, samples) && ValidSamples(n, InUnits(c, samples))
    ensures PayloadRows(InUnits(c, samples), n) == TimesRows(c, PayloadRows(samples, n))
    ensures |PayloadRows(samples, n)| == |Stacked(samples)|
  {
    hide Stacked, Torques, InUnits, ValidSamples, Times;
    StackedInUnits(c, samples);
    StackedAt(n, samples, 0, 0);
    StackedAt(n, InUnits(c, samples), 0, 0);
    var tails, rows := PayloadRows(samples, n), Stacked(samples);
    forall t | 0 <= t < |rows| ensures PayloadRows(InUnits(c, samples), n)[t] == TimesAll(c, tails[t]) {
      TailTimes(c, rows[t], n - 4);
    }
  }

  lemma TailTimes(c: real, row: seq<real>, base: nat)
    requires base <= |row|
    ensures TimesAll(c, row)[base..] == TimesAll(c, row[base..])
  {
    hide Times;
  }

  // --------------------------------------------------------- what is already explained

  /** Torque `r` of sample `k` as the parameters predict it. */
  ghost function Predicted(n: int, samples: seq<Sample>, theta: Vec, k: nat, r: nat): real
    requires k < |samples| && r < |samples[k].y|
  {
    Dot(n, VecOf(samples[k].y[r]), theta)
  }

  ghost predicate Explains(n: nat, samples: seq<Sample>, theta: Vec)
    requires ValidSamples(n, samples)
  {
    forall k, r | 0 <= k < |samples| && 0 <= r < NQ :: samples[k].tau[r] == Predicted(n, samples, theta, k, r)
  }

  /** Each row belongs to a sample. */
  lemma RowOf(n: nat, samples: seq<Sample>, t: nat) returns (k: nat, r: nat)
    requires ValidSamples(n, samples) && t < NQ * |samples|
    ensures k < |samples| && r < NQ && t == NQ * k + r
  {
    k, r := t / NQ, t % NQ;
  }

  lemma NothingLeft(n: nat, samples: seq<Sample>, theta: Vec, t: nat)
    requires ValidSamples(n, samples) && Explains(n, samples, theta) && t < |Stacked(samples)|
    ensures Residual(n, Stacked(samples), Torques(samples), theta)(t) == 0.0
  {
    StackedAt(n, samples, 0, 0);
    var k, r := RowOf(n, samples, t);
    assert samples[k].tau[r] == Predicted(n, samples, theta, k, r);
    ResidualAt(n, samples, theta, k, r);
  }

  lemma CostNonNegative(n: int, rows: Rows, res: Vec, weight: real, x: Vec)
    requires weight >= 0.0
    ensures Cost(n, rows, res, weight, x) >= 0.0
  {
    hide Dot;
    NormSqNonNegative(|rows|, Minus(res, MulVec(n, Regressor(rows), x)));
    NormSqNonNegative(n, x);
    ProductSign(weight, NormSq(n, x));
  }

  lemma NormSqZero(n: nat, v: Vec)
    requires forall i | 0 <= i < n :: v(i) == 0.0
    ensures NormSq(n, v) == 0.0
  {
    DotTruncate(0, n, v, v);
    DotEmpty(v, v);
  }

  /** A parameter vector without cost is the one identified. */
  lemma Costless(n: int, rows: Rows, res: Vec, weight: real, theta: seq<real>, determined: seq<real>, x: Vec)
    requires weight >= 0.0 && Identifies(n, rows, res, weight, theta, determined)
    requires Cost(n, rows, res, weight, x) == 0.0
    ensures SameVec(n, x, VecOf(theta))
  {
    hide Cost, IsShare, Unexcited;
    CostNonNegative(n, rows, res, weight, VecOf(theta));
  }

  /** Torques the model predicts call for no correction. */
  lemma ExplainedArmIsKept(samples: seq<Sample>, baseline: seq<real>, ridge: real, correction: seq<real>,
                           determined: seq<real>)
    requires ridge >= 0.0 && ValidSamples(|baseline|, samples) && Explains(|baseline|, samples, VecOf(baseline))
    requires ArmIdentified(samples, baseline, ridge, correction, determined)
    ensures forall i | 0 <= i < |baseline| :: correction[i] == 0.0
  {
    hide Dot, Residual, Stacked, Torques, Identifies, Lambda, Explains;
    var n, rows, res := |baseline|, Stacked(samples), ArmResidual(samples, baseline);
    LambdaSign(rows, ridge);
    forall t | 0 <= t < |rows| ensures Minus(res, MulVec(n, Regressor(rows), Zero()))(t) == 0.0 {
      NothingLeft(n, samples, VecOf(baseline), t);
      ZeroProduct(n, Regressor(rows)(t));
    }
    NormSqZero(|rows|, Minus(res, MulVec(n, Regressor(rows), Zero())));
    NormSqZero(n, Zero());
    Costless(n, rows, res, Lambda(rows, ridge), correction, determined, Zero());
    HasSize(n, rows, res, Lambda(rows, ridge), correction, determined);
    forall i | 0 <= i < n ensures correction[i] == 0.0 {
      assert VecOf(correction)(i) == Zero()(i);
    }
  }

  lemma HasSize(n: int, rows: Rows, res: Vec, weight: real, theta: seq<real>, determined: seq<real>)
    requires Identifies(n, rows, res, weight, theta, determined)
    ensures |theta| == n == |determined|
  {
  }

  /** Without a ridge a payload that explains the torques is found, whatever it is. */
  lemma ExplainedPayloadIsFound(samples: seq<Sample>, unloaded: seq<real>, payload: Vec, theta: seq<real>,
                                determined: seq<real>)
    requires |unloaded| >= 4 && ValidSamples(|unloaded|, samples)
    requires Explains(|unloaded|, samples, Plus(VecOf(unloaded), Shifted(|unloaded| - 4, payload)))
    requires PayloadIdentified(samples, unloaded, 0.0, theta, determined)
    ensures |theta| == 4 && forall i | 0 <= i < 4 :: theta[i] == payload(i)
  {
    hide Dot, Stacked, Torques, Identifies, Lambda, Explains, PayloadRows, Plus, Shifted;
    var n, rows := |unloaded|, PayloadRows(samples, |unloaded|);
    var res := PayloadResidual(samples, unloaded);
    LambdaSign(rows, 0.0);
    PayloadLeavesNothing(samples, unloaded, payload);
    assert Lambda(rows, 0.0) == 0.0;
    assert Cost(4, rows, res, 0.0, payload) == 0.0;
    Costless(4, rows, res, 0.0, theta, determined, payload);
    HasSize(4, rows, res, 0.0, theta, determined);
  }

  lemma PayloadLeavesNothing(samples: seq<Sample>, unloaded: seq<real>, payload: Vec)
    requires |unloaded| >= 4 && ValidSamples(|unloaded|, samples)
    requires Explains(|unloaded|, samples, Plus(VecOf(unloaded), Shifted(|unloaded| - 4, payload)))
    ensures Misfit(4, PayloadRows(samples, |unloaded|), PayloadResidual(samples, unloaded), payload) == 0.0
  {
    hide Dot, Stacked, Torques, Explains;
    var n, rows, tau := |unloaded|, Stacked(samples), Torques(samples);
    var base, tails := n - 4, PayloadRows(samples, n);
    var res, x := PayloadResidual(samples, unloaded), Shifted(base, payload);
    StackedAt(n, samples, 0, 0);
    forall t | 0 <= t < |rows| ensures Minus(res, MulVec(4, Regressor(tails), payload))(t) == 0.0 {
      NothingLeft(n, samples, Plus(VecOf(unloaded), x), t);
      DotPlus(n, Regressor(rows)(t), VecOf(unloaded), x);
      TailImage(base, rows, payload, t);
    }
    NormSqZero(|rows|, Minus(res, MulVec(4, Regressor(tails), payload)));
  }

  // ------------------------------------------------------------------ the ridge's share

  /** Every row has one entry, of one magnitude. */
  ghost predicate Uniform(rows: Rows, m: real) {
    forall t | 0 <= t < |rows| :: |rows[t]| == 1 && Abs(rows[t][0]) == m
  }

  lemma {:induction false} UniformScale(rows: Rows, m: real)
    requires Uniform(rows, m) && rows != [] && m >= 0.0
    ensures Scale(rows) == m
    decreases |rows|
  {
    var init, last := rows[..|rows| - 1], rows[|rows| - 1];
    if init != [] {
      UniformScale(init, m);
    }
    assert RowPeak(last, Scale(init), 1) == Max(RowPeak(last, Scale(init), 0), Abs(last[0]));
  }

  lemma {:induction false} UniformDot(k: nat, u: Vec, m: real, p: real)
    requires (forall t | 0 <= t < k :: Abs(u(t)) == m) && p == m * m
    ensures Dot(k, u, u) == k as real * p
    decreases k
  {
    if k > 0 {
      UniformDot(k - 1, u, m, p);
      SquareOfAbs(u(k - 1), m);
      assert (k - 1) as real * p + p == k as real * p;
    }
  }

  lemma SquareOfAbs(x: real, m: real)
    requires Abs(x) == m
    ensures x * x == m * m
  {
  }

  /** What one column of one magnitude adds up to, and the weight its ridge comes to. */
  lemma UniformEquation(rows: Rows, m: real, ridge: real)
    requires Uniform(rows, m) && rows != [] && m > 0.0
    ensures Normal(rows)(0)(0) > 0.0 && Lambda(rows, ridge) == ridge * Normal(rows)(0)(0)
  {
    hide Dot, Scale;
    UniformScale(rows, m);
    var u, k := Transpose(Regressor(rows))(0), |rows|;
    UniformDot(k, u, m, m * m);
    ProductPositive(m, m, m * m);
    ProductPositive(k as real, m * m, k as real * (m * m));
    assert ridge * m * m * k as real == ridge * (k as real * (m * m));
  }

  lemma OneEntry(a: Mat, x: Vec)
    ensures MulVec(1, a, x)(0) == a(0)(0) * x(0)
  {
    DotEmpty(a(0), x);
    DotNext(0, a(0), x, a(0)(0), x(0));
  }

  /** A single parameter that every row sees alike: the ridge is relative to what the rows say, however many. */
  lemma OneColumnShare(rows: Rows, m: real, ridge: real, d: real)
    requires Uniform(rows, m) && rows != [] && m > 0.0 && ridge > 0.0
    requires IsShare(1, rows, Lambda(rows, ridge), 0, d)
    ensures d == 1.0 / (1.0 + ridge)
  {
    hide Dot, Lambda, Normal;
    var weight, p := Lambda(rows, ridge), Normal(rows)(0)(0);
    UniformEquation(rows, m, ridge);
    var c: Vec :| ShareWitness(1, rows, weight, 0, d, c);
    OneEntry(Ridged(Normal(rows), weight), c);
    assert MulVec(1, Ridged(Normal(rows), weight), c)(0) == Unit(0)(0);
    Relative(p, ridge, weight, c(0), d);
  }

  lemma Relative(p: real, ridge: real, weight: real, c: real, d: real)
    requires p > 0.0 && ridge > 0.0 && weight == ridge * p && (p + weight) * c == 1.0 && d == 1.0 - weight * c
    ensures d == 1.0 / (1.0 + ridge)
  {
    assert (p + weight) * c == p * c + weight * c;
    assert d == p * c;
    assert d * (1.0 + ridge) == p * c + (ridge * p) * c;
    assert d * (1.0 + ridge) == 1.0;
  }

  lemma UniformStack(samples: seq<Sample>, m: real)
    requires ValidSamples(1, samples)
    requires forall k, r | 0 <= k < |samples| && 0 <= r < NQ :: Abs(samples[k].y[r][0]) == m
    ensures Uniform(Stacked(samples), m) && (samples != [] ==> Stacked(samples) != [])
  {
    StackedAt(1, samples, 0, 0);
    forall t | 0 <= t < |Stacked(samples)|
      ensures |Stacked(samples)[t]| == 1 && Abs(Stacked(samples)[t][0]) == m
    {
      var k, r := RowOf(1, samples, t);
      StackedAt(1, samples, k, r);
      assert Abs(samples[k].y[r][0]) == m;
    }
  }

  /** An arm of one parameter seen alike by every torque: its score, whatever the number of samples. */
  lemma OneParameterScore(samples: seq<Sample>, baseline: seq<real>, m: real, ridge: real, correction: seq<real>,
                          determined: seq<real>)
    requires |baseline| == 1 && samples != [] && ValidSamples(1, samples) && m > 0.0 && ridge > 0.0
    requires forall k, r | 0 <= k < |samples| && 0 <= r < NQ :: Abs(samples[k].y[r][0]) == m
    requires ArmIdentified(samples, baseline, ridge, correction, determined)
    ensures |determined| == 1 && determined[0] == 1.0 / (1.0 + ridge)
  {
    hide Dot, Stacked, Lambda, Cost, IsShare, Unexcited, Uniform;
    UniformStack(samples, m);
    OneColumnShare(Stacked(samples), m, ridge, determined[0]);
  }

  // ------------------------------------------------------------------ errors in torque

  /** Where every torque is missed by the same amount, that is the reported error. */
  lemma UniformError(sqrt: real -> real, n: nat, samples: seq<Sample>, theta: Vec, m: real)
    requires IsSqrt(sqrt) && samples != [] && ValidSamples(n, samples) && m >= 0.0
    requires forall k, r | 0 <= k < |samples| && 0 <= r < NQ ::
               Abs(samples[k].tau[r] - Predicted(n, samples, theta, k, r)) == m
    ensures MeanRoot(sqrt, SquaredError(n, samples, theta), |samples| * NQ) == m
  {
    hide Dot, MeanRoot, Stacked, Torques, Residual, Predicted, Times;
    var rows := Stacked(samples);
    var miss := Residual(n, rows, Torques(samples), theta);
    StackedAt(n, samples, 0, 0);
    forall t | 0 <= t < |rows| ensures Abs(miss(t)) == m {
      Missed(n, samples, theta, t, m);
    }
    var p, count := m * m, |samples| * NQ;
    UniformDot(|rows|, miss, m, p);
    RootOfMean(sqrt, count, m, p, NormSq(|rows|, miss));
  }

  lemma Missed(n: nat, samples: seq<Sample>, theta: Vec, t: nat, m: real)
    requires ValidSamples(n, samples) && t < |Stacked(samples)|
    requires forall k, r | 0 <= k < |samples| && 0 <= r < NQ ::
               Abs(samples[k].tau[r] - Predicted(n, samples, theta, k, r)) == m
    ensures Abs(Residual(n, Stacked(samples), Torques(samples), theta)(t)) == m
  {
    StackedAt(n, samples, 0, 0);
    var k, r := RowOf(n, samples, t);
    ResidualAt(n, samples, theta, k, r);
    assert Abs(samples[k].tau[r] - Predicted(n, samples, theta, k, r)) == m;
  }

  lemma RootOfMean(sqrt: real -> real, count: nat, m: real, p: real, sum: real)
    requires IsSqrt(sqrt) && count > 0 && m >= 0.0 && p == m * m && sum == count as real * p
    ensures MeanRoot(sqrt, sum, count) == m
  {
    Divided(count as real, p, sum);
    ProductSign(m, m);
    RootOfSquare(sqrt, m, p);
  }

  lemma Divided(k: real, p: real, sum: real)
    requires k > 0.0 && sum == k * p
    ensures sum / k == p
  {
  }

  lemma RootOfSquare(sqrt: real -> real, m: real, p: real)
    requires IsSqrt(sqrt) && m >= 0.0 && p == m * m && p >= 0.0
    ensures sqrt(p) == m
  {
    var u := sqrt(p);
    assert u >= 0.0 && u * u == p;
    SquaresOrder(u, m);
    SquaresOrder(m, u);
  }
}
