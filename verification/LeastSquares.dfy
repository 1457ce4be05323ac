/**
 Regularised least squares over a list of regressor rows: what the normal equations stand for,
 the cost they minimise, and how much of each parameter the rows fix.
 */
module LeastSquares {
  import opened LinearAlgebra

  type Rows = seq<seq<real>>

  ghost function RowAt(rows: Rows, t: int): Vec {
    if 0 <= t < |rows| then VecOf(rows[t]) else Zero()
  }

  /** The regressor rows as a matrix; zero outside. */
  ghost function Regressor(rows: Rows): Mat {
    t => RowAt(rows, t)
  }

  /** The normal matrix: regressor transposed times regressor. */
  ghost function Normal(rows: Rows): Mat {
    Gram(|rows|, Transpose(Regressor(rows)))
  }

  /** Regressor transposed times the residual each row has to explain. */
  ghost function NormalRhs(rows: Rows, res: Vec): Vec {
    MulVec(|rows|, Transpose(Regressor(rows)), res)
  }

  /** What `x` leaves unexplained, squared and summed. */
  ghost function Misfit(n: int, rows: Rows, res: Vec, x: Vec): real {
    NormSq(|rows|, Minus(res, MulVec(n, Regressor(rows), x)))
  }

  /** The regularised cost: squared residual plus `weight` times the squared parameters. */
  ghost function Cost(n: int, rows: Rows, res: Vec, weight: real, x: Vec): real {
    Misfit(n, rows, res, x) + weight * NormSq(n, x)
  }

  /** `x` solves the ridged normal equations. */
  ghost predicate Solves(n: int, rows: Rows, res: Vec, weight: real, x: Vec) {
    SameVec(n, MulVec(n, Ridged(Normal(rows), weight), x), NormalRhs(rows, res))
  }

  /** `d` is one minus the ridge's share of entry `a` of the inverse diagonal. */
  ghost predicate IsShare(n: int, rows: Rows, weight: real, a: int, d: real) {
    exists c: Vec :: ShareWitness(n, rows, weight, a, d, c)
  }

  ghost predicate ShareWitness(n: int, rows: Rows, weight: real, a: int, d: real, c: Vec) {
    && SameVec(n, MulVec(n, Ridged(Normal(rows), weight), c), Unit(a))
    && d == 1.0 - weight * c(a)
  }

  /** No row touches parameter `a`. */
  ghost predicate Unexcited(rows: Rows, a: int) {
    forall t | 0 <= t < |rows| :: Regressor(rows)(t)(a) == 0.0
  }

  // ------------------------------------------------------------------- building up

  lemma NormalAppend(rows: Rows, row: seq<real>, a: int, b: int)
    ensures Normal(rows + [row])(a)(b) == Normal(rows)(a)(b) + VecOf(row)(a) * VecOf(row)(b)
  {
    hide Dot;
    var more := rows + [row];
    var n := |rows|;
    var p, q := Transpose(Regressor(rows)), Transpose(Regressor(more));
    DotCong(n, q(a), q(b), p(a), p(b));
    DotNext(n, q(a), q(b), VecOf(row)(a), VecOf(row)(b));
  }

  lemma NormalRhsAppend(rows: Rows, row: seq<real>, res: Vec, a: int)
    ensures NormalRhs(rows + [row], res)(a) == NormalRhs(rows, res)(a) + VecOf(row)(a) * res(|rows|)
  {
    hide Dot;
    var more := rows + [row];
    var n := |rows|;
    var p, q := Transpose(Regressor(rows)), Transpose(Regressor(more));
    DotCong(n, q(a), res, p(a), res);
    DotNext(n, q(a), res, VecOf(row)(a), res(n));
  }

  // ------------------------------------------------------------------- the minimiser

  lemma TransposeTwice(n: int, a: Mat, x: Vec, t: int)
    ensures MulVec(n, Transpose(Transpose(a)), x)(t) == MulVec(n, a, x)(t)
  {
    DotCong(n, Transpose(Transpose(a))(t), x, a(t), x);
  }

  lemma NormalMulVec(n: int, rows: Rows, x: Vec, a: int)
    ensures MulVec(n, Normal(rows), x)(a) == NormalRhs(rows, MulVec(n, Regressor(rows), x))(a)
  {
    hide Dot;
    var y, b := Regressor(rows), Transpose(Regressor(rows));
    var twice := MulVec(n, Transpose(b), x);
    GramMulVec(n, |rows|, b, x, a);
    forall t ensures twice(t) == MulVec(n, y, x)(t) {
      TransposeTwice(n, y, x, t);
    }
    DotCong(|rows|, b(a), twice, b(a), MulVec(n, y, x));
  }

  lemma NormalQuad(n: int, rows: Rows, x: Vec)
    ensures Quad(n, Normal(rows), x) == NormSq(|rows|, MulVec(n, Regressor(rows), x))
  {
    hide Dot;
    var y, b := Regressor(rows), Transpose(Regressor(rows));
    var twice := MulVec(n, Transpose(b), x);
    GramQuad(n, |rows|, b, x);
    forall t ensures twice(t) == MulVec(n, y, x)(t) {
      TransposeTwice(n, y, x, t);
    }
    DotCong(|rows|, twice, twice, MulVec(n, y, x), MulVec(n, y, x));
  }

  lemma RidgedNormalQuad(n: int, rows: Rows, weight: real, x: Vec)
    requires 0 <= n
    ensures Quad(n, Ridged(Normal(rows), weight), x) ==
            NormSq(|rows|, MulVec(n, Regressor(rows), x)) + weight * NormSq(n, x)
  {
    RidgedQuad(n, Normal(rows), weight, x);
    NormalQuad(n, rows, x);
  }

  lemma NormSqMinus(n: int, u: Vec, v: Vec)
    ensures NormSq(n, Minus(u, v)) == NormSq(n, u) - 2.0 * Dot(n, u, v) + NormSq(n, v)
  {
    hide Dot;
    var d := Minus(u, v);
    DotMinus(n, d, u, v);
    DotSym(n, d, u);
    DotSym(n, d, v);
    DotMinus(n, u, u, v);
    DotMinus(n, v, u, v);
    DotSym(n, u, v);
  }

  /** What the solution leaves unexplained projects onto the parameters as `weight` times it. */
  lemma ResidualProjection(n: int, rows: Rows, res: Vec, weight: real, best: Vec, a: int)
    requires 0 <= a < n && Solves(n, rows, res, weight, best)
    ensures NormalRhs(rows, Minus(res, MulVec(n, Regressor(rows), best)))(a) == weight * best(a)
  {
    hide Dot;
    var b := Transpose(Regressor(rows));
    assert MulVec(n, Ridged(Normal(rows), weight), best)(a) == NormalRhs(rows, res)(a);
    RidgedMulVec(n, Normal(rows), weight, best, a);
    NormalMulVec(n, rows, best, a);
    DotMinus(|rows|, b(a), res, MulVec(n, Regressor(rows), best));
  }

  /** The cost at `x` is the cost at the solution plus the quadratic form of their difference. */
  lemma CostGap(n: int, rows: Rows, res: Vec, weight: real, best: Vec, x: Vec)
    requires 0 <= n && Solves(n, rows, res, weight, best)
    ensures Cost(n, rows, res, weight, x) ==
            Cost(n, rows, res, weight, best) + Quad(n, Ridged(Normal(rows), weight), Minus(x, best))
  {
    hide Dot;
    var k, y := |rows|, Regressor(rows);
    var d := Minus(x, best);
    var left := Minus(res, MulVec(n, y, best));
    var step := MulVec(n, y, d);

    var after := Minus(res, MulVec(n, y, x));
    forall t ensures after(t) == Minus(left, step)(t) {
      MulVecMinus(n, y, x, best, t);
    }
    DotCong(k, after, after, Minus(left, step), Minus(left, step));
    NormSqMinus(k, left, step);

    Adjoint(k, n, y, left, d);
    var projection := MulVec(k, Transpose(y), left);
    forall a | 0 <= a < n ensures projection(a) == Scaled(weight, best)(a) {
      ResidualProjection(n, rows, res, weight, best, a);
    }
    DotCong(n, projection, d, Scaled(weight, best), d);
    DotSym(n, Scaled(weight, best), d);
    DotScaled(n, d, weight, best);
    DotSym(n, d, best);

    DotCong(n, x, x, Plus(best, d), Plus(best, d));
    NormSqPlus(n, best, d);
    RidgedNormalQuad(n, rows, weight, d);
    Regroup(weight, NormSq(n, best), Dot(n, best, d), NormSq(n, d));
  }

  lemma Regroup(c: real, p: real, q: real, r: real)
    ensures c * (p + 2.0 * q + r) == c * p + 2.0 * (c * q) + c * r
  {
  }

  /** Only the solution attains the least cost. */
  lemma SolutionMinimises(n: int, rows: Rows, res: Vec, weight: real, best: Vec)
    requires 0 <= n && Solves(n, rows, res, weight, best)
    requires PositiveDefinite(n, Ridged(Normal(rows), weight))
    ensures forall x: Vec :: Cost(n, rows, res, weight, best) <= Cost(n, rows, res, weight, x)
    ensures forall x: Vec | Cost(n, rows, res, weight, x) == Cost(n, rows, res, weight, best) :: SameVec(n, x, best)
  {
    hide Dot;
    forall x: Vec
      ensures Cost(n, rows, res, weight, best) <= Cost(n, rows, res, weight, x)
      ensures Cost(n, rows, res, weight, x) == Cost(n, rows, res, weight, best) ==> SameVec(n, x, best)
    {
      var d := Minus(x, best);
      CostGap(n, rows, res, weight, best, x);
      if NonZero(n, d) {
        assert Quad(n, Ridged(Normal(rows), weight), d) > 0.0;
      } else {
        forall i | 0 <= i < n ensures x(i) == best(i) {
          assert d(i) == 0.0;
        }
        DotTruncate(0, n, MulVec(n, Ridged(Normal(rows), weight), d), d);
        DotEmpty(MulVec(n, Ridged(Normal(rows), weight), d), d);
        DotSym(n, MulVec(n, Ridged(Normal(rows), weight), d), d);
      }
    }
  }

  /** The parameters explain at least as much as leaving everything alone does. */
  lemma SolutionImproves(n: int, rows: Rows, res: Vec, weight: real, best: Vec)
    requires 0 <= n && weight >= 0.0 && Solves(n, rows, res, weight, best)
    requires PositiveDefinite(n, Ridged(Normal(rows), weight))
    ensures Misfit(n, rows, res, best) <= NormSq(|rows|, res)
  {
    hide Dot;
    SolutionMinimises(n, rows, res, weight, best);
    assert Cost(n, rows, res, weight, best) <= Cost(n, rows, res, weight, Zero());
    var none := Minus(res, MulVec(n, Regressor(rows), Zero()));
    forall t ensures none(t) == res(t) {
      ZeroProduct(n, Regressor(rows)(t));
    }
    DotCong(|rows|, none, none, res, res);
    ZeroProduct(n, Zero());
    NormSqNonNegative(n, best);
  }

  lemma ZeroProduct(n: int, u: Vec)
    ensures Dot(n, u, Zero()) == 0.0
  {
    DotTruncate(0, if n <= 0 then 0 else n, u, Zero());
  }

  // ------------------------------------------------------- how much the rows fix

  /** With a positive definite matrix each parameter has one share. */
  lemma ShareUnique(n: int, rows: Rows, weight: real, a: int, d: real, d': real)
    requires 0 <= a < n && PositiveDefinite(n, Ridged(Normal(rows), weight))
    requires IsShare(n, rows, weight, a, d) && IsShare(n, rows, weight, a, d')
    ensures d == d'
  {
    var c: Vec :| ShareWitness(n, rows, weight, a, d, c);
    var c': Vec :| ShareWitness(n, rows, weight, a, d', c');
    SolutionUnique(n, Ridged(Normal(rows), weight), c, c');
  }

  /** The entry of the inverse diagonal is the squared image of the column plus its ridge term. */
  lemma ShareEnergy(n: int, rows: Rows, weight: real, a: int, d: real, c: Vec)
    requires 0 <= a < n && ShareWitness(n, rows, weight, a, d, c)
    ensures c(a) == NormSq(|rows|, MulVec(n, Regressor(rows), c)) + weight * NormSq(n, c)
  {
    hide Dot;
    var m := Ridged(Normal(rows), weight);
    DotCong(n, c, MulVec(n, m, c), c, Unit(a));
    DotUnit(n, c, a);
    RidgedNormalQuad(n, rows, weight, c);
  }

  /** A share lies between zero and one before any clamp. */
  lemma ShareInRange(n: int, rows: Rows, weight: real, a: int, d: real)
    requires 0 <= a < n && weight >= 0.0 && IsShare(n, rows, weight, a, d)
    ensures 0.0 <= d <= 1.0
  {
    hide Dot;
    var c: Vec :| ShareWitness(n, rows, weight, a, d, c);
    ShareEnergy(n, rows, weight, a, d, c);
    NormSqNonNegative(|rows|, MulVec(n, Regressor(rows), c));
    NormSqCovers(n, c, a);
    NormSqNonNegative(n, c);
    Shrinkage(weight, c(a), NormSq(n, c));
  }

  lemma Shrinkage(weight: real, c: real, energy: real)
    requires weight >= 0.0 && energy >= 0.0 && c * c <= energy && c >= weight * energy
    ensures 0.0 <= weight * c <= 1.0
  {
    assert weight * (c * c) <= weight * energy;
    assert weight * (c * c) == (weight * c) * c;
  }

  /** A parameter no row touches is left at zero, and its share is zero. */
  lemma UnexcitedUntouched(n: int, rows: Rows, res: Vec, weight: real, best: Vec, a: int, d: real)
    requires 0 <= a < n && weight > 0.0 && Unexcited(rows, a)
    requires Solves(n, rows, res, weight, best) && IsShare(n, rows, weight, a, d)
    ensures best(a) == 0.0 && d == 0.0
  {
    hide Dot;
    UnexcitedRow(n, rows, weight, a, best);
    UnexcitedRhs(rows, res, a);
    assert MulVec(n, Ridged(Normal(rows), weight), best)(a) == NormalRhs(rows, res)(a);
    var c: Vec :| ShareWitness(n, rows, weight, a, d, c);
    UnexcitedRow(n, rows, weight, a, c);
    assert MulVec(n, Ridged(Normal(rows), weight), c)(a) == Unit(a)(a);
  }

  lemma UnexcitedRhs(rows: Rows, v: Vec, a: int)
    requires Unexcited(rows, a)
    ensures NormalRhs(rows, v)(a) == 0.0
  {
    hide Dot;
    var k, column := |rows|, Transpose(Regressor(rows))(a);
    DotSym(k, column, v);
    DotTruncate(0, k, v, column);
    DotEmpty(v, column);
  }

  lemma UnexcitedRow(n: int, rows: Rows, weight: real, a: int, x: Vec)
    requires 0 <= a < n && Unexcited(rows, a)
    ensures MulVec(n, Ridged(Normal(rows), weight), x)(a) == weight * x(a)
  {
    hide Dot;
    RidgedMulVec(n, Normal(rows), weight, x, a);
    NormalMulVec(n, rows, x, a);
    UnexcitedRhs(rows, MulVec(n, Regressor(rows), x), a);
  }

  /** A share is zero exactly for the parameters no row touches. */
  lemma ShareZero(n: int, rows: Rows, weight: real, a: int, d: real)
    requires 0 <= a < n && weight > 0.0 && IsShare(n, rows, weight, a, d)
    ensures d == 0.0 <==> Unexcited(rows, a)
  {
    hide Dot;
    var c: Vec :| ShareWitness(n, rows, weight, a, d, c);
    if Unexcited(rows, a) {
      UnexcitedRow(n, rows, weight, a, c);
      assert MulVec(n, Ridged(Normal(rows), weight), c)(a) == Unit(a)(a);
    }
    if d == 0.0 {
      NoEnergyUnexcited(n, rows, weight, a, c);
    }
  }

  lemma NoEnergyUnexcited(n: int, rows: Rows, weight: real, a: int, c: Vec)
    requires 0 <= a < n && weight > 0.0 && ShareWitness(n, rows, weight, a, 0.0, c)
    ensures Unexcited(rows, a)
  {
    hide Dot;
    var y := MulVec(n, Regressor(rows), c);
    var rest: Vec := i => if i == a then 0.0 else c(i);
    ShareEnergy(n, rows, weight, a, 0.0, c);
    NormSqSplit(n, c, rest, a);
    NormSqNonNegative(|rows|, y);
    NormSqNonNegative(n, rest);
    NoEnergyLeft(weight, c(a), NormSq(|rows|, y), NormSq(n, rest));
    forall i | 0 <= i < n && i != a ensures c(i) == 0.0 {
      NormSqZero(n, rest, i);
    }
    forall t | 0 <= t < |rows| ensures Regressor(rows)(t)(a) == 0.0 {
      NormSqZero(|rows|, y, t);
      DotOnly(n, Regressor(rows)(t), c, a);
    }
  }

  /** A share of zero accounts for the whole inverse entry by its own ridge term. */
  lemma NoEnergyLeft(weight: real, c: real, image: real, rest: real)
    requires weight > 0.0 && image >= 0.0 && rest >= 0.0
    requires weight * c == 1.0 && c == image + weight * (c * c + rest)
    ensures image == 0.0 && rest == 0.0
  {
    assert weight * (c * c + rest) == (weight * c) * c + weight * rest;
    assert weight * rest >= 0.0;
    assert image == 0.0 && weight * rest == 0.0;
  }

  lemma NormSqZero(n: int, v: Vec, i: int)
    requires 0 <= i < n && NormSq(n, v) == 0.0
    ensures v(i) == 0.0
  {
    if v(i) != 0.0 {
      NormSqPositive(n, v);
    }
  }

  lemma {:induction false} NormSqSplit(n: int, v: Vec, rest: Vec, a: int)
    requires 0 <= a < n && rest(a) == 0.0 && forall i | 0 <= i < n && i != a :: rest(i) == v(i)
    ensures NormSq(n, v) == v(a) * v(a) + NormSq(n, rest)
    decreases n
  {
    if a == n - 1 {
      DotCong(a, v, v, rest, rest);
    } else {
      NormSqSplit(n - 1, v, rest, a);
    }
  }

  /** A vector with one nonzero entry picks that entry out. */
  lemma DotOnly(n: int, u: Vec, v: Vec, a: int)
    requires 0 <= a < n && v(a) != 0.0 && forall i | 0 <= i < n && i != a :: v(i) == 0.0
    ensures Dot(n, u, v) == 0.0 ==> u(a) == 0.0
  {
    hide Dot;
    DotCong(n, u, v, u, Scaled(v(a), Unit(a)));
    DotScaled(n, u, v(a), Unit(a));
    DotUnit(n, u, a);
    if u(a) != 0.0 {
      NonZeroProduct(v(a), u(a));
    }
  }

  lemma NonZeroProduct(x: real, y: real)
    requires x != 0.0 && y != 0.0
    ensures x * y != 0.0
  {
  }
}
