/**
 Identifying inertial parameters from static torque: the arm fit, the payload fit and the pose
 design that predicts what the arm fit will determine. The model's gravity regressor is an
 input: each sample carries the rows it evaluates to at its pose.
 */
module GravityFit {
  import opened Wrappers
  import opened Reals
  import opened LinearAlgebra
  import opened Cholesky
  import opened LeastSquares

  /** Arm joints, hence rows per regressor evaluation. */
  const NQ: nat := 6

  /** The smallest mass a centre of mass is divided by: the machine epsilon of a double. */
  const MASS_EPSILON: real := 1.0 / 4503599627370496.0

  datatype Sample = Sample(y: Rows, tau: seq<real>)

  datatype FitError = BadArguments | NotSolvable

  datatype ArmFit = ArmFit(correction: seq<real>, determined: seq<real>, rms: real, rmsBefore: real)

  datatype PayloadFit = PayloadFit(mass: real, com: seq<real>, determined: seq<real>, rms: real, rmsUnloaded: real)

  ghost predicate ValidRows(cols: nat, y: Rows) {
    forall t | 0 <= t < |y| :: |y[t]| == cols
  }

  ghost predicate ValidSample(cols: nat, s: Sample) {
    |s.y| == NQ == |s.tau| && ValidRows(cols, s.y)
  }

  ghost predicate ValidSamples(cols: nat, samples: seq<Sample>) {
    forall k | 0 <= k < |samples| :: ValidSample(cols, samples[k])
  }

  /** Every sample's rows, stacked. */
  ghost function Stacked(samples: seq<Sample>): Rows {
    if samples == [] then [] else Stacked(samples[..|samples| - 1]) + samples[|samples| - 1].y
  }

  ghost function Torques(samples: seq<Sample>): seq<real> {
    if samples == [] then [] else Torques(samples[..|samples| - 1]) + samples[|samples| - 1].tau
  }

  /** What the parameters `theta` leave of the measured torques. */
  ghost function Residual(n: int, rows: Rows, tau: seq<real>, theta: Vec): Vec {
    Minus(VecOf(tau), MulVec(n, Regressor(rows), theta))
  }

  // ----------------------------------------------------------- the regressor's scale

  function RowPeak(row: seq<real>, peak: real, k: nat): (r: real)
    requires k <= |row|
    ensures r >= peak
    decreases k
  {
    if k == 0 then peak else Max(RowPeak(row, peak, k - 1), Abs(row[k - 1]))
  }

  /** The largest magnitude in the regressor. */
  ghost function Scale(rows: Rows): (r: real)
    ensures r >= 0.0
  {
    if rows == [] then 0.0
    else
      var last := rows[|rows| - 1];
      RowPeak(last, Scale(rows[..|rows| - 1]), |last|)
  }

  lemma {:induction false} RowPeakCovers(row: seq<real>, peak: real, k: nat)
    requires k <= |row|
    ensures forall i | 0 <= i < k :: Abs(row[i]) <= RowPeak(row, peak, k)
    ensures RowPeak(row, peak, k) == peak || exists i | 0 <= i < k :: Abs(row[i]) == RowPeak(row, peak, k)
    decreases k
  {
    if k > 0 {
      RowPeakCovers(row, peak, k - 1);
    }
  }

  /** Some row has an entry that is not zero. */
  ghost predicate Excited(rows: Rows) {
    exists t, i :: 0 <= t < |rows| && 0 <= i < |rows[t]| && rows[t][i] != 0.0
  }

  lemma {:induction false} ScalePositive(rows: Rows)
    ensures Scale(rows) > 0.0 <==> Excited(rows)
    decreases |rows|
  {
    if rows != [] {
      var init, last := rows[..|rows| - 1], rows[|rows| - 1];
      ScalePositive(init);
      RowPeakCovers(last, Scale(init), |last|);
      if Excited(rows) {
        var t, i :| 0 <= t < |rows| && 0 <= i < |rows[t]| && rows[t][i] != 0.0;
        if t < |init| {
          assert init[t][i] != 0.0;
        } else {
          assert Abs(last[i]) > 0.0;
        }
      }
      if Scale(rows) > 0.0 {
        if Scale(rows) == Scale(init) {
          var t, i :| 0 <= t < |init| && 0 <= i < |init[t]| && init[t][i] != 0.0;
          assert rows[t][i] != 0.0;
        } else {
          var i :| 0 <= i < |last| && Abs(last[i]) == Scale(rows);
          assert rows[|rows| - 1][i] != 0.0;
        }
      }
    }
  }

  /** No entry is larger than the scale, and some entry is as large unless it is nothing. */
  lemma {:induction false} ScaleIsLargest(rows: Rows)
    ensures forall t, i | 0 <= t < |rows| && 0 <= i < |rows[t]| :: Abs(rows[t][i]) <= Scale(rows)
    ensures Scale(rows) == 0.0 || exists t, i :: 0 <= t < |rows| && 0 <= i < |rows[t]| && Abs(rows[t][i]) == Scale(rows)
    decreases |rows|
  {
    if rows != [] {
      var init, last := rows[..|rows| - 1], rows[|rows| - 1];
      ScaleIsLargest(init);
      RowPeakCovers(last, Scale(init), |last|);
      forall t, i | 0 <= t < |rows| && 0 <= i < |rows[t]| ensures Abs(rows[t][i]) <= Scale(rows) {
        assert t < |init| ==> Abs(init[t][i]) <= Scale(init);
      }
      if Scale(rows) != 0.0 {
        if Scale(rows) == Scale(init) {
          var t, i :| 0 <= t < |init| && 0 <= i < |init[t]| && Abs(init[t][i]) == Scale(init);
          assert Abs(rows[t][i]) == Scale(rows);
        } else {
          var i :| 0 <= i < |last| && Abs(last[i]) == Scale(rows);
          assert Abs(rows[|init|][i]) == Scale(rows);
        }
      }
    }
  }

  /** The weight a ridge comes to: in proportion to the largest entry squared and to the count of rows. */
  ghost function Lambda(rows: Rows, ridge: real): real {
    Weighting(ridge, Scale(rows), |rows|)
  }

  function Weighting(ridge: real, scale: real, count: nat): real {
    ridge * scale * scale * count as real
  }

  // --------------------------------------------------- accumulating normal equations

  ghost function Outer(u: Vec): Mat {
    i => (j => u(i) * u(j))
  }

  /** Rows before `a`, and the first `b` entries of row `a`, have had `d` added. */
  ghost predicate Added(n: int, before: seq<real>, after: seq<real>, d: Mat, a: int, b: int) {
    && |before| == n * n == |after|
    && forall p, q | 0 <= p < n && 0 <= q < n ::
         Flat(n, after)(p)(q) == Flat(n, before)(p)(q) + if p < a || (p == a && q < b) then d(p)(q) else 0.0
  }

  lemma AddedStep(n: int, before: seq<real>, now: seq<real>, next: seq<real>, d: Mat, a: int, b: int, term: real)
    requires 0 <= a < n && 0 <= b < n && term == d(a)(b)
    requires Added(n, before, now, d, a, b)
    requires next == now[Cell(n, a, b) := now[Cell(n, a, b)] + term]
    ensures Added(n, before, next, d, a, b + 1)
  {
    FlatUpdate(n, now, a, b, now[Cell(n, a, b)] + term);
    assert Flat(n, now)(a)(b) == now[Cell(n, a, b)];
  }

  /** Add a row's outer product to `ata`; the running scale takes its magnitudes in. */
  method AddOuter(ata: array<real>, n: nat, row: seq<real>, scale0: real) returns (scale: real)
    requires ata.Length == n * n && |row| == n
    modifies ata
    ensures scale == RowPeak(row, scale0, n)
    ensures Added(n, old(ata[..]), ata[..], Outer(VecOf(row)), n, 0)
  {
    scale := scale0;
    ghost var before, d := ata[..], Outer(VecOf(row));
    for a := 0 to n
      invariant scale == RowPeak(row, scale0, a)
      invariant Added(n, before, ata[..], d, a, 0)
    {
      scale := Max(scale, Abs(row[a]));
      for b := 0 to n
        invariant Added(n, before, ata[..], d, a, b)
      {
        ghost var now := ata[..];
        var term := row[a] * row[b];
        OuterEntry(row, a, b);
        ata[Cell(n, a, b)] := ata[Cell(n, a, b)] + term;
        AddedStep(n, before, now, ata[..], d, a, b, term);
      }
    }
  }

  lemma OuterEntry(row: seq<real>, a: nat, b: nat)
    requires a < |row| && b < |row|
    ensures Outer(VecOf(row))(a)(b) == row[a] * row[b]
  {
  }

  /** Inner product of two buffers. */
  method Product(u: seq<real>, v: seq<real>) returns (sum: real)
    requires |u| == |v|
    ensures sum == Dot(|u|, VecOf(u), VecOf(v))
  {
    sum := 0.0;
    for k := 0 to |u|
      invariant sum == Dot(k, VecOf(u), VecOf(v))
    {
      sum := sum + u[k] * v[k];
    }
  }

  /** The buffers hold the normal equations of `rows` with residuals `res`. */
  ghost predicate HoldsNormal(n: int, ata: seq<real>, scale: real, rows: Rows) {
    && |ata| == n * n
    && SameMat(n, Flat(n, ata), Normal(rows))
    && scale == Scale(rows)
  }

  ghost predicate HoldsRhs(n: int, atb: seq<real>, rows: Rows, res: Vec) {
    && |atb| == n
    && SameVec(n, VecOf(atb), NormalRhs(rows, res))
  }

  lemma NormalNext(n: int, before: seq<real>, after: seq<real>, scale: real, rows: Rows, row: seq<real>)
    requires HoldsNormal(n, before, scale, rows) && |after| == n * n && |row| == n
    requires Added(n, before, after, Outer(VecOf(row)), n, 0)
    ensures HoldsNormal(n, after, RowPeak(row, scale, n), rows + [row])
  {
    assert (rows + [row])[..|rows|] == rows;
    forall p, q | 0 <= p < n && 0 <= q < n ensures Flat(n, after)(p)(q) == Normal(rows + [row])(p)(q) {
      assert Outer(VecOf(row))(p)(q) == VecOf(row)(p) * VecOf(row)(q);
      NormalAppend(rows, row, p, q);
    }
  }

  /** One measured equation: `row` times the parameters should be `residual`. */
  method AddEquation(ata: array<real>, atb: array<real>, n: nat, row: seq<real>, residual: real, scale0: real,
                     ghost rows: Rows, ghost res: Vec)
    returns (scale: real)
    requires ata.Length == n * n && atb.Length == n && ata != atb && |row| == n
    requires HoldsNormal(n, ata[..], scale0, rows) && HoldsRhs(n, atb[..], rows, res)
    requires res(|rows|) == residual
    modifies ata, atb
    ensures HoldsNormal(n, ata[..], scale, rows + [row]) && HoldsRhs(n, atb[..], rows + [row], res)
  {
    hide Dot;
    ghost var before, b0 := ata[..], atb[..];
    scale := AddOuter(ata, n, row, scale0);
    NormalNext(n, before, ata[..], scale0, rows, row);
    AddScaledRow(atb, row, residual);
    RhsNext(n, b0, atb[..], residual, rows, row, res);
  }

  /** Add `residual` times `row` to the right-hand side. */
  method AddScaledRow(atb: array<real>, row: seq<real>, residual: real)
    requires atb.Length == |row|
    modifies atb
    ensures forall p | 0 <= p < |row| :: atb[p] == old(atb[p]) + Scaled(residual, VecOf(row))(p)
  {
    ghost var gain := Scaled(residual, VecOf(row));
    for a := 0 to |row|
      invariant forall p | 0 <= p < |row| :: atb[p] == old(atb[p]) + if p < a then gain(p) else 0.0
    {
      assert gain(a) == row[a] * residual;
      atb[a] := atb[a] + row[a] * residual;
    }
  }

  lemma RhsNext(n: int, before: seq<real>, after: seq<real>, residual: real, rows: Rows, row: seq<real>, res: Vec)
    requires HoldsRhs(n, before, rows, res) && |after| == n && residual == res(|rows|)
    requires forall p | 0 <= p < n :: after[p] == before[p] + Scaled(residual, VecOf(row))(p)
    ensures HoldsRhs(n, after, rows + [row], res)
  {
    forall p | 0 <= p < n ensures VecOf(after)(p) == NormalRhs(rows + [row], res)(p) {
      NormalRhsAppend(rows, row, res, p);
      assert VecOf(before)(p) == NormalRhs(rows, res)(p);
    }
  }

  // ------------------------------------------------------------------- the solve

  lemma MulVecCong(n: int, a: Mat, b: Mat, x: Vec)
    requires SameMat(n, a, b)
    ensures SameVec(n, MulVec(n, a, x), MulVec(n, b, x))
  {
    forall i | 0 <= i < n ensures MulVec(n, a, x)(i) == MulVec(n, b, x)(i) {
      DotCong(n, a(i), x, b(i), x);
    }
  }

  /** The buffer holds the ridged normal matrix: what the factorisation is given. */
  ghost predicate HoldsRidged(n: int, a: seq<real>, rows: Rows, weight: real) {
    |a| == n * n && SameMat(n, Flat(n, a), Ridged(Normal(rows), weight))
  }

  lemma RidgedIsSymmetric(n: int, a: seq<real>, rows: Rows, weight: real)
    requires HoldsRidged(n, a, rows, weight)
    ensures SameMat(n, LowerSym(Flat(n, a)), Ridged(Normal(rows), weight))
  {
    hide Dot;
    var b := Transpose(Regressor(rows));
    forall i, j | 0 <= i < n && 0 <= j < n
      ensures LowerSym(Flat(n, a))(i)(j) == Ridged(Normal(rows), weight)(i)(j)
    {
      DotSym(|rows|, b(i), b(j));
    }
  }

  /** Add `weight` down the diagonal. */
  method AddRidge(ata: array<real>, n: nat, weight: real)
    requires ata.Length == n * n
    modifies ata
    ensures SameMat(n, Flat(n, ata[..]), Ridged(Flat(n, old(ata[..])), weight))
  {
    ghost var before := ata[..];
    for a := 0 to n
      invariant forall p, q | 0 <= p < n && 0 <= q < n ::
                  Flat(n, ata[..])(p)(q) == Flat(n, before)(p)(q) + if p == q && p < a then weight else 0.0
    {
      ghost var now := ata[..];
      FlatUpdate(n, now, a, a, now[Cell(n, a, a)] + weight);
      assert Flat(n, now)(a)(a) == now[Cell(n, a, a)];
      ata[Cell(n, a, a)] := ata[Cell(n, a, a)] + weight;
      assert ata[..] == now[Cell(n, a, a) := now[Cell(n, a, a)] + weight];
    }
  }

  lemma RidgeHeld(n: int, before: seq<real>, after: seq<real>, scale: real, rows: Rows, weight: real)
    requires HoldsNormal(n, before, scale, rows) && |after| == n * n
    requires SameMat(n, Flat(n, after), Ridged(Flat(n, before), weight))
    ensures HoldsRidged(n, after, rows, weight)
  {
  }

  /** The factor of a ridged normal matrix, when there is one. */
  method FactorRidged(sqrt: real -> real, a: seq<real>, n: nat, ghost rows: Rows, ghost weight: real)
    returns (r: Option<seq<real>>)
    requires IsSqrt(sqrt) && HoldsRidged(n, a, rows, weight)
    ensures r.Some? <==> PositiveDefinite(n, Ridged(Normal(rows), weight))
    ensures r.Some? ==> |r.value| == n * n && IsFactor(n, Flat(n, r.value), Ridged(Normal(rows), weight))
  {
    RidgedIsSymmetric(n, a, rows, weight);
    PositiveDefiniteCong(n, LowerSym(Flat(n, a)), Ridged(Normal(rows), weight));
    r := CholeskyFactor(sqrt, a, n);
  }

  ghost predicate IsClampedShare(n: int, rows: Rows, weight: real, a: int, r: real) {
    exists d :: IsShare(n, rows, weight, a, d) && r == Clamp(d, 0.0, 1.0)
  }

  /** With a ridge that is not negative the clamp never acts. */
  lemma ClampIdle(n: int, rows: Rows, weight: real, a: int, r: real)
    requires 0 <= a < n && weight >= 0.0 && IsClampedShare(n, rows, weight, a, r)
    ensures IsShare(n, rows, weight, a, r)
  {
    var d :| IsShare(n, rows, weight, a, d) && r == Clamp(d, 0.0, 1.0);
    ShareInRange(n, rows, weight, a, d);
  }

  /** What the rows rather than the ridge fix of each parameter: a solve for each unit vector. */
  method Shares(l: seq<real>, n: nat, weight: real, ghost rows: Rows) returns (determined: seq<real>)
    requires |l| == n * n
    requires IsFactor(n, Flat(n, l), Ridged(Normal(rows), weight))
    ensures |determined| == n
    ensures forall a | 0 <= a < n :: IsClampedShare(n, rows, weight, a, determined[a])
  {
    var out := new real[n](_ => 0.0);
    for a := 0 to n
      invariant forall p | 0 <= p < a :: IsClampedShare(n, rows, weight, p, out[p])
    {
      var e := seq(n, i => 0.0)[a := 1.0];
      var col := CholeskyApply(l, e, n);
      ghost var d := 1.0 - weight * col[a];
      MulVecCong(n, Gram(n, Flat(n, l)), Ridged(Normal(rows), weight), VecOf(col));
      assert SameVec(n, VecOf(e), Unit(a));
      assert ShareWitness(n, rows, weight, a, d, VecOf(col));
      assert IsShare(n, rows, weight, a, d);
      out[a] := Clamp(1.0 - weight * col[a], 0.0, 1.0);
    }
    determined := out[..];
  }

  // ---------------------------------------------------------------- root mean square

  lemma {:induction false} StackedAt(cols: nat, samples: seq<Sample>, k: nat, r: nat)
    requires ValidSamples(cols, samples)
    ensures |Stacked(samples)| == NQ * |samples| == |Torques(samples)|
    ensures ValidRows(cols, Stacked(samples))
    ensures k < |samples| && r < NQ ==>
              && Stacked(samples)[NQ * k + r] == samples[k].y[r]
              && Torques(samples)[NQ * k + r] == samples[k].tau[r]
    decreases |samples|
  {
    if samples != [] {
      var init := samples[..|samples| - 1];
      StackedAt(cols, init, k, r);
      if k < |init| {
        assert init[k] == samples[k];
      }
    }
  }

  /** The squared torque error of `theta` over all samples. */
  ghost function SquaredError(n: int, samples: seq<Sample>, theta: Vec): real {
    NormSq(|Stacked(samples)|, Residual(n, Stacked(samples), Torques(samples), theta))
  }

  function MeanRoot(sqrt: real -> real, sum: real, count: nat): real
    requires count > 0
  {
    sqrt(sum / count as real)
  }

  lemma MeanRootMonotone(sqrt: real -> real, p: real, q: real, count: nat)
    requires IsSqrt(sqrt) && count > 0 && 0.0 <= p <= q
    ensures MeanRoot(sqrt, p, count) <= MeanRoot(sqrt, q, count)
  {
    var c := count as real;
    var x, y := p / c, q / c;
    assert 0.0 <= x <= y;
    var u, v := sqrt(x), sqrt(y);
    assert u >= 0.0 && v >= 0.0 && u * u == x && v * v == y;
    SquaresOrder(u, v);
  }

  method RmsOf(sqrt: real -> real, samples: seq<Sample>, theta: seq<real>) returns (rms: real)
    requires samples != [] && ValidSamples(|theta|, samples)
    ensures rms == MeanRoot(sqrt, SquaredError(|theta|, samples, VecOf(theta)), |samples| * NQ)
  {
    hide Dot;
    ghost var n := |theta|;
    ghost var err := Residual(n, Stacked(samples), Torques(samples), VecOf(theta));
    StackedAt(n, samples, 0, 0);
    DotEmpty(err, err);
    var sum := 0.0;
    for k := 0 to |samples|
      invariant sum == NormSq(NQ * k, err)
    {
      for r := 0 to NQ
        invariant sum == NormSq(NQ * k + r, err)
      {
        var modelled := Product(samples[k].y[r], theta);
        ResidualAt(n, samples, VecOf(theta), k, r);
        NormSqNext(NQ * k + r, err, modelled - samples[k].tau[r]);
        sum := sum + (modelled - samples[k].tau[r]) * (modelled - samples[k].tau[r]);
      }
    }
    rms := MeanRoot(sqrt, sum, |samples| * NQ);
  }

  lemma NormSqNext(t: nat, err: Vec, miss: real)
    requires err(t) == -miss
    ensures NormSq(t + 1, err) == NormSq(t, err) + miss * miss
  {
    DotNext(t, err, err, -miss, -miss);
    assert (-miss) * (-miss) == miss * miss;
  }

  lemma ResidualAt(n: nat, samples: seq<Sample>, theta: Vec, k: nat, r: nat)
    requires ValidSamples(n, samples) && k < |samples| && r < NQ
    ensures Residual(n, Stacked(samples), Torques(samples), theta)(NQ * k + r) ==
            samples[k].tau[r] - Dot(n, VecOf(samples[k].y[r]), theta)
  {
    StackedAt(n, samples, k, r);
  }

  // --------------------------------------------------------------------- arm fit

  /** What a fit promises: the one minimiser, and for each parameter the share the data fixed. */
  ghost predicate Identifies(n: int, rows: Rows, res: Vec, weight: real, theta: seq<real>, determined: seq<real>) {
    && |theta| == n == |determined|
    && (forall x: Vec :: Cost(n, rows, res, weight, VecOf(theta)) <= Cost(n, rows, res, weight, x))
    && (forall x: Vec | Cost(n, rows, res, weight, x) == Cost(n, rows, res, weight, VecOf(theta)) ::
          SameVec(n, x, VecOf(theta)))
    && (forall a | 0 <= a < n :: 0.0 <= determined[a] <= 1.0 && IsShare(n, rows, weight, a, determined[a]))
    && (weight > 0.0 ==> forall a | 0 <= a < n :: Unexcited(rows, a) <==> determined[a] == 0.0)
    && (weight > 0.0 ==> forall a | 0 <= a < n && Unexcited(rows, a) :: theta[a] == 0.0)
  }

  lemma SolutionIdentifies(n: int, rows: Rows, res: Vec, weight: real, theta: seq<real>, determined: seq<real>)
    requires |theta| == n == |determined| && weight >= 0.0
    requires PositiveDefinite(n, Ridged(Normal(rows), weight))
    requires LeastSquares.Solves(n, rows, res, weight, VecOf(theta))
    requires forall a | 0 <= a < n :: IsClampedShare(n, rows, weight, a, determined[a])
    ensures Identifies(n, rows, res, weight, theta, determined)
  {
    hide Dot;
    SolutionMinimises(n, rows, res, weight, VecOf(theta));
    forall a | 0 <= a < n
      ensures 0.0 <= determined[a] <= 1.0 && IsShare(n, rows, weight, a, determined[a])
      ensures weight > 0.0 ==> (Unexcited(rows, a) <==> determined[a] == 0.0)
      ensures weight > 0.0 && Unexcited(rows, a) ==> theta[a] == 0.0
    {
      ClampIdle(n, rows, weight, a, determined[a]);
      ShareInRange(n, rows, weight, a, determined[a]);
      if weight > 0.0 {
        ShareZero(n, rows, weight, a, determined[a]);
        if Unexcited(rows, a) {
          UnexcitedUntouched(n, rows, res, weight, VecOf(theta), a, determined[a]);
        }
      }
    }
  }

  /** Solve the ridged normal equations and score every parameter. */
  method Identify(sqrt: real -> real, a: seq<real>, b: seq<real>, n: nat, weight: real, ghost rows: Rows,
                  ghost res: Vec)
    returns (r: Option<(seq<real>, seq<real>)>)
    requires IsSqrt(sqrt) && weight >= 0.0
    requires HoldsRidged(n, a, rows, weight) && HoldsRhs(n, b, rows, res)
    ensures r.Some? <==> PositiveDefinite(n, Ridged(Normal(rows), weight))
    ensures r.Some? ==> |r.value.0| == n && LeastSquares.Solves(n, rows, res, weight, VecOf(r.value.0))
    ensures r.Some? ==> Identifies(n, rows, res, weight, r.value.0, r.value.1)
  {
    hide Dot;
    var l := FactorRidged(sqrt, a, n, rows, weight);
    if l.None? {
      return None;
    }
    var theta := CholeskyApply(l.value, b, n);
    MulVecCong(n, Gram(n, Flat(n, l.value)), Ridged(Normal(rows), weight), VecOf(theta));
    var determined := Shares(l.value, n, weight, rows);
    SolutionIdentifies(n, rows, res, weight, theta, determined);
    r := Some((theta, determined));
  }

  lemma LambdaSign(rows: Rows, ridge: real)
    requires ridge >= 0.0
    ensures Lambda(rows, ridge) >= 0.0
    ensures Lambda(rows, ridge) > 0.0 <==> ridge > 0.0 && Excited(rows)
  {
    hide Weighting;
    ScalePositive(rows);
    WeightingSign(ridge, Scale(rows), |rows|);
  }

  lemma WeightingSign(ridge: real, scale: real, count: nat)
    requires ridge >= 0.0 && scale >= 0.0
    ensures Weighting(ridge, scale, count) >= 0.0
    ensures Weighting(ridge, scale, count) > 0.0 <==> ridge > 0.0 && scale > 0.0 && count > 0
  {
    var k := count as real;
    var p := ridge * scale;
    var q := p * scale;
    PositiveFactors(ridge, scale, p);
    PositiveFactors(p, scale, q);
    PositiveFactors(q, k, q * k);
  }

  lemma PositiveFactors(a: real, b: real, p: real)
    requires a >= 0.0 && b >= 0.0 && p == a * b
    ensures p >= 0.0 && (p > 0.0 <==> a > 0.0 && b > 0.0)
  {
    if a > 0.0 && b > 0.0 {
      ProductPositive(a, b, p);
    }
  }

  /** With a positive ridge the equations are solvable exactly when some row says something. */
  lemma SolvableWhenExcited(n: nat, rows: Rows, ridge: real)
    requires ridge > 0.0 && ValidRows(n, rows)
    ensures PositiveDefinite(n, Ridged(Normal(rows), Lambda(rows, ridge))) <==> n == 0 || Excited(rows)
  {
    hide Dot;
    var weight := Lambda(rows, ridge);
    LambdaSign(rows, ridge);
    if Excited(rows) {
      RidgedGramPositiveDefinite(n, |rows|, Transpose(Regressor(rows)), weight);
    } else if n == 0 {
      assert forall x: Vec :: !NonZero(0, x);
    } else {
      var e := Unit(0);
      assert e(0) != 0.0;
      RidgedNormalQuad(n, rows, weight, e);
      forall t | 0 <= t < |rows| ensures MulVec(n, Regressor(rows), e)(t) == 0.0 {
        DotUnit(n, Regressor(rows)(t), 0);
        assert rows[t][0] == 0.0;
      }
      DotTruncate(0, |rows|, MulVec(n, Regressor(rows), e), MulVec(n, Regressor(rows), e));
      DotEmpty(MulVec(n, Regressor(rows), e), MulVec(n, Regressor(rows), e));
      assert Quad(n, Ridged(Normal(rows), weight), e) == 0.0;
    }
  }

  /** Adding parameters moves the residual by their image. */
  lemma ResidualShift(n: int, rows: Rows, tau: seq<real>, theta: Vec, x: Vec)
    ensures NormSq(|rows|, Residual(n, rows, tau, Plus(theta, x))) == Misfit(n, rows, Residual(n, rows, tau, theta), x)
  {
    hide Dot;
    var u := Residual(n, rows, tau, Plus(theta, x));
    var v := Minus(Residual(n, rows, tau, theta), MulVec(n, Regressor(rows), x));
    forall t ensures u(t) == v(t) {
      DotPlus(n, Regressor(rows)(t), theta, x);
    }
    DotCong(|rows|, u, u, v, v);
  }

  lemma SquaredErrorCong(n: int, samples: seq<Sample>, theta: Vec, theta': Vec)
    requires SameVec(n, theta, theta')
    ensures SquaredError(n, samples, theta) == SquaredError(n, samples, theta')
  {
    hide Dot;
    var rows, tau := Stacked(samples), Torques(samples);
    var u, v := Residual(n, rows, tau, theta), Residual(n, rows, tau, theta');
    forall t ensures u(t) == v(t) {
      DotCong(n, Regressor(rows)(t), theta, Regressor(rows)(t), theta');
    }
    DotCong(|rows|, u, u, v, v);
  }

  /** What one arm's links are fitted to: the measured torque the baseline leaves unexplained. */
  ghost function ArmResidual(samples: seq<Sample>, baseline: seq<real>): Vec {
    Residual(|baseline|, Stacked(samples), Torques(samples), VecOf(baseline))
  }

  /** The correction and the scores a fit of the arm's links comes to. */
  ghost predicate ArmIdentified(samples: seq<Sample>, baseline: seq<real>, ridge: real, correction: seq<real>,
                                determined: seq<real>) {
    var rows := Stacked(samples);
    Identifies(|baseline|, rows, ArmResidual(samples, baseline), Lambda(rows, ridge), correction, determined)
  }

  /** The normal equations of every sample's rows, one row at a time. */
  method ArmEquations(samples: seq<Sample>, baseline: seq<real>)
    returns (ata: array<real>, atb: array<real>, scale: real)
    requires ValidSamples(|baseline|, samples)
    ensures fresh(ata) && fresh(atb) && ata != atb
    ensures ata.Length == |baseline| * |baseline| && atb.Length == |baseline|
    ensures HoldsNormal(|baseline|, ata[..], scale, Stacked(samples)) && scale == Scale(Stacked(samples))
    ensures HoldsRhs(|baseline|, atb[..], Stacked(samples), ArmResidual(samples, baseline))
  {
    hide Dot, HoldsNormal, HoldsRhs, Stacked, Torques, Residual;
    var n := |baseline|;
    ghost var rows, res := Stacked(samples), ArmResidual(samples, baseline);
    StackedAt(n, samples, 0, 0);
    ata := new real[n * n](_ => 0.0);
    atb := new real[n](_ => 0.0);
    scale := 0.0;
    NothingHeld(n, ata[..], atb[..], res);
    for k := 0 to |samples|
      invariant HoldsNormal(n, ata[..], scale, rows[..NQ * k])
      invariant HoldsRhs(n, atb[..], rows[..NQ * k], res)
    {
      for i := 0 to NQ
        invariant HoldsNormal(n, ata[..], scale, rows[..NQ * k + i])
        invariant HoldsRhs(n, atb[..], rows[..NQ * k + i], res)
      {
        ghost var done := rows[..NQ * k + i];
        var row := samples[k].y[i];
        var modelled := Product(row, baseline);
        ResidualAt(n, samples, VecOf(baseline), k, i);
        StackedAt(n, samples, k, i);
        assert rows[..NQ * k + i + 1] == done + [row];
        scale := AddEquation(ata, atb, n, row, samples[k].tau[i] - modelled, scale, done, res);
      }
    }
    assert rows[..NQ * |samples|] == rows;
    ScaleHeld(n, ata[..], scale, rows);
  }

  lemma ScaleHeld(n: int, ata: seq<real>, scale: real, rows: Rows)
    requires HoldsNormal(n, ata, scale, rows)
    ensures scale == Scale(rows)
  {
  }

  /**
   A correction to the link parameters the model carries, fitted to what it mispredicts. It is
   refused exactly for bad arguments or samples whose regressors are all zero.
   */
  method FitArm(sqrt: real -> real, samples: seq<Sample>, baseline: seq<real>, ridge: real)
    returns (r: Result<ArmFit, FitError>)
    requires IsSqrt(sqrt) && ValidSamples(|baseline|, samples)
    ensures r == Err(BadArguments) <==> samples == [] || ridge <= 0.0
    ensures r.Ok? <==> samples != [] && ridge > 0.0 && (baseline == [] || Excited(Stacked(samples)))
    ensures r.Ok? ==> ArmIdentified(samples, baseline, ridge, r.value.correction, r.value.determined)
    ensures r.Ok? ==>
              var n, count := |baseline|, |samples| * NQ;
              var corrected := Plus(VecOf(baseline), VecOf(r.value.correction));
              && r.value.rms == MeanRoot(sqrt, SquaredError(n, samples, corrected), count)
              && r.value.rmsBefore == MeanRoot(sqrt, SquaredError(n, samples, VecOf(baseline)), count)
              && r.value.rms <= r.value.rmsBefore
  {
    hide Dot, HoldsNormal, HoldsRhs, HoldsRidged, Stacked, Torques, Residual, Identifies, PositiveDefinite, MeanRoot,
        Weighting;
    if samples == [] || ridge <= 0.0 {
      return Err(BadArguments);
    }
    var n := |baseline|;
    ghost var rows, res := Stacked(samples), ArmResidual(samples, baseline);
    StackedAt(n, samples, 0, 0);
    var ata, atb, scale := ArmEquations(samples, baseline);
    var count := |samples| * NQ;
    var weight := Weighting(ridge, scale, count);
    LambdaSign(rows, ridge);
    ghost var plain := ata[..];
    AddRidge(ata, n, weight);
    RidgeHeld(n, plain, ata[..], scale, rows, weight);
    SolvableWhenExcited(n, rows, ridge);
    var fit := Identify(sqrt, ata[..], atb[..], n, weight, rows, res);
    if fit.None? {
      return Err(NotSolvable);
    }
    var correction, determined := fit.value.0, fit.value.1;
    var corrected := seq(n, i requires 0 <= i < n => baseline[i] + correction[i]);
    var rms := RmsOf(sqrt, samples, corrected);
    var rmsBefore := RmsOf(sqrt, samples, baseline);
    ArmImproves(sqrt, samples, baseline, weight, correction, corrected);
    r := Ok(ArmFit(correction, determined, rms, rmsBefore));
  }

  lemma NothingHeld(n: nat, ata: seq<real>, atb: seq<real>, res: Vec)
    requires |ata| == n * n && |atb| == n
    requires (forall i | 0 <= i < |ata| :: ata[i] == 0.0) && (forall i | 0 <= i < n :: atb[i] == 0.0)
    ensures HoldsNormal(n, ata, 0.0, []) && HoldsRhs(n, atb, [], res)
  {
    forall a | 0 <= a < n
      ensures VecOf(atb)(a) == NormalRhs([], res)(a)
      ensures forall b | 0 <= b < n :: Flat(n, ata)(a)(b) == Normal([])(a)(b)
    {
      var u := Transpose(Regressor([]));
      DotEmpty(u(a), res);
      forall b | 0 <= b < n ensures Flat(n, ata)(a)(b) == Normal([])(a)(b) {
        assert Flat(n, ata)(a)(b) == ata[Cell(n, a, b)];
        DotEmpty(u(a), u(b));
      }
    }
  }

  lemma ArmImproves(sqrt: real -> real, samples: seq<Sample>, baseline: seq<real>, weight: real,
                    correction: seq<real>, corrected: seq<real>)
    requires IsSqrt(sqrt) && samples != [] && weight >= 0.0
    requires |baseline| == |correction| == |corrected| && ValidSamples(|baseline|, samples)
    requires forall i | 0 <= i < |baseline| :: corrected[i] == baseline[i] + correction[i]
    requires PositiveDefinite(|baseline|, Ridged(Normal(Stacked(samples)), weight))
    requires LeastSquares.Solves(|baseline|, Stacked(samples), ArmResidual(samples, baseline), weight,
             VecOf(correction))
    ensures var sum := Plus(VecOf(baseline), VecOf(correction));
            var before, after := SquaredError(|baseline|, samples, VecOf(baseline)), SquaredError(|baseline|,
                samples, sum);
            && SquaredError(|baseline|, samples, VecOf(corrected)) == after
            && MeanRoot(sqrt, after, |samples| * NQ) <= MeanRoot(sqrt, before, |samples| * NQ)
  {
    hide Dot;
    var n, rows, tau := |baseline|, Stacked(samples), Torques(samples);
    var sum := Plus(VecOf(baseline), VecOf(correction));
    SquaredErrorCong(n, samples, VecOf(corrected), sum);
    ResidualShift(n, rows, tau, VecOf(baseline), VecOf(correction));
    SolutionImproves(n, rows, ArmResidual(samples, baseline), weight, VecOf(correction));
    NormSqNonNegative(|rows|, Residual(n, rows, tau, sum));
    MeanRootMonotone(sqrt, SquaredError(n, samples, sum), SquaredError(n, samples, VecOf(baseline)), |samples| * NQ);
  }

  // ----------------------------------------------------------------- payload fit

  /** The columns of the regressor from `base` on. */
  ghost function Tails(base: nat, rows: Rows): (r: Rows)
    requires forall t | 0 <= t < |rows| :: base <= |rows[t]|
    ensures |r| == |rows| && forall t | 0 <= t < |rows| :: r[t] == rows[t][base..]
  {
    seq(|rows|, t requires 0 <= t < |rows| => rows[t][base..])
  }

  /** `x` moved up by `base` entries. */
  ghost function Shifted(base: int, x: Vec): Vec {
    i => if i < base then 0.0 else x(i - base)
  }

  lemma {:induction false} DotShifted(base: nat, n: nat, u: seq<real>, x: Vec)
    requires base + n <= |u|
    ensures Dot(base + n, VecOf(u), Shifted(base, x)) == Dot(n, VecOf(u[base..]), x)
    decreases n
  {
    if n == 0 {
      DotTruncate(0, base, VecOf(u), Shifted(base, x));
    } else {
      DotShifted(base, n - 1, u, x);
    }
  }

  /** The last four columns see the payload's parameters as the whole regressor sees them shifted. */
  lemma TailImage(base: nat, rows: Rows, x: Vec, t: nat)
    requires ValidRows(base + 4, rows) && t < |rows|
    ensures MulVec(base + 4, Regressor(rows), Shifted(base, x))(t) == MulVec(4, Regressor(Tails(base, rows)), x)(t)
  {
    DotShifted(base, 4, rows[t], x);
  }

  /** No payload but the empty one leaves every measured torque alone. */
  ghost predicate Observable(n: int, rows: Rows) {
    forall x: Vec | NonZero(n, x) :: NonZero(|rows|, MulVec(n, Regressor(rows), x))
  }

  /** Without a ridge the equations are solvable exactly when the rows tell every payload from none. */
  lemma SolvableWhenObservable(n: nat, rows: Rows)
    ensures PositiveDefinite(n, Ridged(Normal(rows), 0.0)) <==> Observable(n, rows)
  {
    hide Dot;
    forall x: Vec
      ensures Quad(n, Ridged(Normal(rows), 0.0), x) > 0.0 <==> NonZero(|rows|, MulVec(n, Regressor(rows), x))
    {
      var y := MulVec(n, Regressor(rows), x);
      RidgedNormalQuad(n, rows, 0.0, x);
      if NonZero(|rows|, y) {
        NormSqPositive(|rows|, y);
      } else {
        DotTruncate(0, |rows|, y, y);
        DotEmpty(y, y);
      }
    }
  }

  ghost function PayloadResidual(samples: seq<Sample>, unloaded: seq<real>): Vec {
    Residual(|unloaded|, Stacked(samples), Torques(samples), VecOf(unloaded))
  }

  ghost function PayloadRows(samples: seq<Sample>, cols: nat): Rows
    requires cols >= 4 && ValidSamples(cols, samples)
  {
    StackedAt(cols, samples, 0, 0);
    Tails(cols - 4, Stacked(samples))
  }

  /** The payload parameters and the scores a fit comes to. */
  ghost predicate PayloadIdentified(samples: seq<Sample>, unloaded: seq<real>, ridge: real, theta: seq<real>,
                                    determined: seq<real>)
    requires |unloaded| >= 4 && ValidSamples(|unloaded|, samples)
  {
    var rows := PayloadRows(samples, |unloaded|);
    Identifies(4, rows, PayloadResidual(samples, unloaded), Lambda(rows, ridge), theta, determined)
  }

  /** The payload's normal equations: the last body's four columns against what the arm leaves unexplained. */
  method PayloadEquations(samples: seq<Sample>, unloaded: seq<real>)
    returns (ata: array<real>, atb: array<real>, scale: real)
    requires |unloaded| >= 4 && ValidSamples(|unloaded|, samples)
    ensures fresh(ata) && fresh(atb) && ata != atb && ata.Length == 16 && atb.Length == 4
    ensures var rows := PayloadRows(samples, |unloaded|);
            && HoldsNormal(4, ata[..], scale, rows) && scale == Scale(rows)
            && HoldsRhs(4, atb[..], rows, PayloadResidual(samples, unloaded))
  {
    hide Dot, HoldsNormal, HoldsRhs, Stacked, Torques, Residual;
    var n := |unloaded|;
    var base := n - 4;
    ghost var rows, res := PayloadRows(samples, n), PayloadResidual(samples, unloaded);
    StackedAt(n, samples, 0, 0);
    ata := new real[4 * 4](_ => 0.0);
    atb := new real[4](_ => 0.0);
    scale := 0.0;
    NothingHeld(4, ata[..], atb[..], res);
    for k := 0 to |samples|
      invariant HoldsNormal(4, ata[..], scale, rows[..NQ * k])
      invariant HoldsRhs(4, atb[..], rows[..NQ * k], res)
    {
      for i := 0 to NQ
        invariant HoldsNormal(4, ata[..], scale, rows[..NQ * k + i])
        invariant HoldsRhs(4, atb[..], rows[..NQ * k + i], res)
      {
        ghost var done := rows[..NQ * k + i];
        var full := samples[k].y[i];
        var modelled := Product(full, unloaded);
        ResidualAt(n, samples, VecOf(unloaded), k, i);
        StackedAt(n, samples, k, i);
        assert rows[..NQ * k + i + 1] == done + [full[base..]];
        scale := AddEquation(ata, atb, 4, full[base..], samples[k].tau[i] - modelled, scale, done, res);
      }
    }
    assert rows[..NQ * |samples|] == rows;
    ScaleHeld(4, ata[..], scale, rows);
  }

  /** Mass times centre of mass is the first moment, unless there is no mass to speak of. */
  ghost predicate IsCentreOfMass(theta: seq<real>, com: seq<real>)
    requires |theta| == 4
  {
    && |com| == 3
    && forall i | 0 <= i < 3 ::
         if Abs(theta[0]) > MASS_EPSILON then com[i] * theta[0] == theta[i + 1] else com[i] == 0.0
  }

  function Loaded(unloaded: seq<real>, theta: seq<real>): (r: seq<real>)
    requires |unloaded| >= 4 == |theta|
    ensures |r| == |unloaded|
    ensures forall i | 0 <= i < |unloaded| ::
              r[i] == unloaded[i] + if i < |unloaded| - 4 then 0.0 else theta[i - (|unloaded| - 4)]
  {
    var base := |unloaded| - 4;
    unloaded[..base] + seq(4, i requires 0 <= i < 4 => unloaded[base + i] + theta[i])
  }

  method CentreOfMass(theta: seq<real>) returns (com: seq<real>)
    requires |theta| == 4
    ensures IsCentreOfMass(theta, com)
  {
    var mass := theta[0];
    if Abs(mass) > MASS_EPSILON {
      com := [theta[1] / mass, theta[2] / mass, theta[3] / mass];
      forall i | 0 <= i < 3 ensures com[i] * mass == theta[i + 1] {
        Quotient(theta[i + 1], mass);
      }
    } else {
      com := [0.0, 0.0, 0.0];
    }
  }

  /**
   Mass and first moments of what the tool carries, fitted in the last four regressor columns to
   the torque the unloaded arm leaves over. `theta` is its mass and first moments.
   */
  method FitPayload(sqrt: real -> real, samples: seq<Sample>, unloaded: seq<real>, ridge: real)
    returns (r: Result<PayloadFit, FitError>, ghost theta: seq<real>)
    requires IsSqrt(sqrt) && |unloaded| >= 4 && ValidSamples(|unloaded|, samples)
    ensures r == Err(BadArguments) <==> samples == [] || ridge < 0.0
    ensures samples != [] && ridge > 0.0 ==> (r.Ok? <==> Excited(PayloadRows(samples, |unloaded|)))
    ensures samples != [] && ridge == 0.0 ==> (r.Ok? <==> Observable(4, PayloadRows(samples, |unloaded|)))
    ensures r.Ok? ==> PayloadIdentified(samples, unloaded, ridge, theta, r.value.determined)
    ensures r.Ok? ==>
              |theta| == 4 && r.value.mass == theta[0] && IsCentreOfMass(theta, r.value.com)
    ensures r.Ok? ==>
              var n, count := |unloaded|, |samples| * NQ;
              var loaded := Plus(VecOf(unloaded), Shifted(n - 4, VecOf(theta)));
              && r.value.rms == MeanRoot(sqrt, SquaredError(n, samples, loaded), count)
              && r.value.rmsUnloaded == MeanRoot(sqrt, SquaredError(n, samples, VecOf(unloaded)), count)
              && r.value.rms <= r.value.rmsUnloaded
  {
    hide Dot, HoldsNormal, HoldsRhs, HoldsRidged, Stacked, Torques, Residual, PositiveDefinite, Identifies, Excited,
      Observable, MeanRoot, IsCentreOfMass, Weighting;
    theta := [];
    if samples == [] || ridge < 0.0 {
      return Err(BadArguments), [];
    }
    var n := |unloaded|;
    ghost var rows, res := PayloadRows(samples, n), PayloadResidual(samples, unloaded);
    PayloadRowsValid(samples, n);
    var ata, atb, scale := PayloadEquations(samples, unloaded);
    var count := |samples| * NQ;
    var weight := Weighting(ridge, scale, count);
    LambdaSign(rows, ridge);
    ghost var plain := ata[..];
    AddRidge(ata, 4, weight);
    RidgeHeld(4, plain, ata[..], scale, rows, weight);
    PayloadSolvable(rows, ridge);
    var fit := Identify(sqrt, ata[..], atb[..], 4, weight, rows, res);
    if fit.None? {
      return Err(NotSolvable), [];
    }
    var x, determined := fit.value.0, fit.value.1;
    theta := x;
    var com := CentreOfMass(x);
    var loaded := Loaded(unloaded, x);
    var rms := RmsOf(sqrt, samples, loaded);
    var rmsUnloaded := RmsOf(sqrt, samples, unloaded);
    PayloadImproves(sqrt, samples, unloaded, weight, x, loaded);
    r := Ok(PayloadFit(x[0], com, determined, rms, rmsUnloaded));
  }

  lemma PayloadRowsValid(samples: seq<Sample>, cols: nat)
    requires cols >= 4 && ValidSamples(cols, samples)
    ensures ValidRows(4, PayloadRows(samples, cols)) && |PayloadRows(samples, cols)| == |samples| * NQ
  {
    StackedAt(cols, samples, 0, 0);
  }

  lemma PayloadSolvable(rows: Rows, ridge: real)
    requires ValidRows(4, rows) && ridge >= 0.0
    ensures PositiveDefinite(4, Ridged(Normal(rows), Lambda(rows, ridge))) <==>
            if ridge > 0.0 then Excited(rows) else Observable(4, rows)
  {
    if ridge > 0.0 {
      SolvableWhenExcited(4, rows, ridge);
    } else {
      LambdaSign(rows, ridge);
      SolvableWhenObservable(4, rows);
    }
  }

  /** Carrying the identified payload explains the torques at least as well as carrying nothing. */
  lemma PayloadImproves(sqrt: real -> real, samples: seq<Sample>, unloaded: seq<real>, weight: real,
                        theta: seq<real>, loaded: seq<real>)
    requires IsSqrt(sqrt) && samples != [] && weight >= 0.0
    requires |unloaded| == |loaded| >= 4 && |theta| == 4 && ValidSamples(|unloaded|, samples)
    requires forall i | 0 <= i < |unloaded| ::
               loaded[i] == unloaded[i] + if i < |unloaded| - 4 then 0.0 else theta[i - (|unloaded| - 4)]
    requires PositiveDefinite(4, Ridged(Normal(PayloadRows(samples, |unloaded|)), weight))
    requires LeastSquares.Solves(4, PayloadRows(samples, |unloaded|), PayloadResidual(samples, unloaded), weight,
                                 VecOf(theta))
    ensures var sum := Plus(VecOf(unloaded), Shifted(|unloaded| - 4, VecOf(theta)));
            var before, after := SquaredError(|unloaded|, samples, VecOf(unloaded)), SquaredError(|unloaded|,
                samples, sum);
            && SquaredError(|unloaded|, samples, VecOf(loaded)) == after
            && MeanRoot(sqrt, after, |samples| * NQ) <= MeanRoot(sqrt, before, |samples| * NQ)
  {
    hide Dot;
    var n, rows, tau := |unloaded|, Stacked(samples), Torques(samples);
    var base, tails, x := n - 4, PayloadRows(samples, n), VecOf(theta);
    var sum, res := Plus(VecOf(unloaded), Shifted(base, x)), PayloadResidual(samples, unloaded);
    StackedAt(n, samples, 0, 0);
    SquaredErrorCong(n, samples, VecOf(loaded), sum);
    ResidualShift(n, rows, tau, VecOf(unloaded), Shifted(base, x));
    var u := Minus(res, MulVec(n, Regressor(rows), Shifted(base, x)));
    var v := Minus(res, MulVec(4, Regressor(tails), x));
    forall t | 0 <= t < |rows| ensures u(t) == v(t) {
      TailImage(base, rows, x, t);
    }
    DotCong(|rows|, u, u, v, v);
    SolutionImproves(4, tails, res, weight, x);
    NormSqNonNegative(|rows|, Residual(n, rows, tau, sum));
    MeanRootMonotone(sqrt, SquaredError(n, samples, sum), SquaredError(n, samples, VecOf(unloaded)), |samples| * NQ);
  }

  // ----------------------------------------------------------------- pose design

  /** The normal matrix of a growing set of poses, scored as `FitArm` will score the fit. */
  class PoseDesign {
    const cols: nat
    var ata: array<real>
    var scale: real
    var poses: nat
    ghost var rows: Rows

    ghost predicate Valid()
      reads this, ata
    {
      && ata.Length == cols * cols
      && HoldsNormal(cols, ata[..], scale, rows)
      && |rows| == NQ * poses && ValidRows(cols, rows)
    }

    constructor (cols: nat)
      ensures Valid() && fresh(ata)
      ensures this.cols == cols && rows == []
    {
      this.cols := cols;
      ata := new real[cols * cols](_ => 0.0);
      scale, poses, rows := 0.0, 0, [];
      new;
      NothingHeld(cols, ata[..], seq(cols, i => 0.0), Zero());
    }

    /** Six more rows join those the design holds. */
    method Add(y: Rows)
      requires Valid() && |y| == NQ && ValidRows(cols, y)
      modifies this`scale, this`poses, this`rows, ata
      ensures Valid() && rows == old(rows) + y && poses == old(poses) + 1
    {
      hide Dot, HoldsNormal;
      for r := 0 to NQ
        invariant ata.Length == cols * cols
        invariant HoldsNormal(cols, ata[..], scale, rows)
        invariant rows == old(rows) + y[..r] && poses == old(poses)
      {
        ghost var before, scale0 := ata[..], scale;
        scale := AddOuter(ata, cols, y[r], scale);
        NormalNext(cols, before, ata[..], scale0, rows, y[r]);
        rows := rows + [y[r]];
        assert y[..r + 1] == y[..r] + [y[r]];
      }
      assert y[..NQ] == y;
      poses := poses + 1;
    }

    function Weight(ridge: real): real
      reads this
    {
      Weighting(ridge, scale, poses * NQ)
    }

    /** What the rows held so far would fix of each parameter; nothing when they cannot be solved for. */
    method Determined(sqrt: real -> real, ridge: real) returns (r: seq<real>)
      requires IsSqrt(sqrt) && Valid()
      ensures Valid() && |r| == cols
      ensures if PositiveDefinite(cols, Ridged(Normal(rows), Lambda(rows, ridge)))
              then forall a | 0 <= a < cols :: IsClampedShare(cols, rows, Lambda(rows, ridge), a, r[a])
              else forall a | 0 <= a < cols :: r[a] == 0.0
    {
      hide Weighting;
      var weight := Weight(ridge);
      ScaleHeld(cols, ata[..], scale, rows);
      var held := ata[..];
      var ridged := new real[cols * cols](i requires 0 <= i < |held| => held[i]);
      assert ridged[..] == held;
      ghost var plain := ridged[..];
      AddRidge(ridged, cols, weight);
      RidgeHeld(cols, plain, ridged[..], scale, rows, weight);
      var l := FactorRidged(sqrt, ridged[..], cols, rows, weight);
      if l.None? {
        return seq(cols, i => 0.0);
      }
      r := Shares(l.value, cols, weight, rows);
    }
  }

  /** A plan over the samples' poses predicts the scores the arm fit then reports. */
  lemma PlanPredictsFit(n: nat, rows: Rows, ridge: real, res: Vec, planned: seq<real>, correction: seq<real>,
      fitted: seq<real>)
    requires ridge > 0.0 && ValidRows(n, rows) && (n == 0 || Excited(rows))
    requires |planned| == n && forall a | 0 <= a < n :: IsClampedShare(n, rows, Lambda(rows, ridge), a, planned[a])
    requires Identifies(n, rows, res, Lambda(rows, ridge), correction, fitted)
    ensures planned == fitted
  {
    hide Dot;
    var weight := Lambda(rows, ridge);
    LambdaSign(rows, ridge);
    SolvableWhenExcited(n, rows, ridge);
    forall a | 0 <= a < n ensures planned[a] == fitted[a] {
      ClampIdle(n, rows, weight, a, planned[a]);
      ShareUnique(n, rows, weight, a, planned[a], fitted[a]);
    }
  }
}
