/**
 The hand-written Cholesky factorisation and its two triangular solves. Matrices are flat
 row-major buffers; `Flat` reads one as a matrix.
 */
module Cholesky {
  import opened LinearAlgebra
  import opened Reals
  import opened Wrappers

  lemma SqrtPositive(sqrt: real -> real, x: real)
    requires IsSqrt(sqrt) && x > 0.0
    ensures sqrt(x) > 0.0
  {
    if sqrt(x) == 0.0 {
      assert sqrt(x) * sqrt(x) == x;
    }
  }

  /** Where row `i`, column `j` of an `n`-column matrix sits in its buffer: `i` rows further on. */
  function At(n: int, i: int, j: int): (k: int)
    requires 0 <= i && 0 <= j < n
    ensures j <= k
    decreases i
  {
    if i == 0 then j else n + At(n, i - 1, j)
  }

  lemma {:induction false} AtIsRowMajor(n: int, i: int, j: int)
    requires 0 <= i && 0 <= j < n
    ensures At(n, i, j) == i * n + j
    decreases i
  {
    if i > 0 {
      AtIsRowMajor(n, i - 1, j);
      assert (i - 1) * n + n == i * n;
    }
  }

  lemma {:induction false} AtInBounds(n: int, m: int, i: int, j: int)
    requires 0 <= i < m && 0 <= j < n
    ensures At(n, i, j) < m * n
    decreases i
  {
    assert (m - 1) * n + n == m * n;
    if i > 0 {
      AtInBounds(n, m - 1, i - 1, j);
    }
  }

  lemma {:induction false} AtInjective(n: int, i: int, j: int, p: int, q: int)
    requires 0 <= i && 0 <= p && 0 <= j < n && 0 <= q < n && At(n, i, j) == At(n, p, q)
    ensures i == p && j == q
    decreases i
  {
    if i > 0 && p > 0 {
      AtInjective(n, i - 1, j, p - 1, q);
    }
  }

  /** The index of an entry of a square matrix. */
  function Cell(n: int, i: int, j: int): (k: int)
    requires 0 <= i < n && 0 <= j < n
    ensures 0 <= k < n * n
  {
    AtInBounds(n, n, i, j);
    At(n, i, j)
  }

  ghost function FlatAt(n: int, s: seq<real>, i: int, j: int): real
    requires |s| == n * n
  {
    if 0 <= i < n && 0 <= j < n then s[Cell(n, i, j)] else 0.0
  }

  /** A row-major buffer as a matrix; zero outside. */
  ghost function Flat(n: int, s: seq<real>): Mat
    requires |s| == n * n
  {
    i => (j => FlatAt(n, s, i, j))
  }

  lemma FlatUpdate(n: int, s: seq<real>, i: int, j: int, v: real)
    requires |s| == n * n && 0 <= i < n && 0 <= j < n
    ensures forall p, q :: Flat(n, s[Cell(n, i, j) := v])(p)(q) ==
                           if p == i && q == j then v else Flat(n, s)(p)(q)
  {
    var t := s[Cell(n, i, j) := v];
    forall p, q ensures Flat(n, t)(p)(q) == if p == i && q == j then v else Flat(n, s)(p)(q) {
      assert Flat(n, t)(p)(q) == FlatAt(n, t, p, q);
      if 0 <= p < n && 0 <= q < n && Cell(n, p, q) == Cell(n, i, j) {
        AtInjective(n, i, j, p, q);
      }
    }
  }

  /** The symmetric matrix whose lower triangle is `a`'s: the triangle the factorisation reads. */
  ghost function LowerSym(a: Mat): Mat {
    i => (j => if j <= i then a(i)(j) else a(j)(i))
  }

  ghost predicate LowerTriangular(n: int, l: Mat) {
    forall i, j | 0 <= i < n && i < j < n :: l(i)(j) == 0.0
  }

  ghost predicate PositiveDiagonal(n: int, l: Mat) {
    forall i | 0 <= i < n :: l(i)(i) > 0.0
  }

  /** `l` is lower triangular with a positive diagonal, and `l` times its transpose is `a`. */
  ghost predicate IsFactor(n: int, l: Mat, a: Mat) {
    && LowerTriangular(n, l)
    && PositiveDiagonal(n, l)
    && SameMat(n, Gram(n, l), a)
  }

  // ------------------------------------------- factorisation: what the loops keep

  /** Rows before `i`, and the first `j` entries of row `i`, are final. */
  ghost predicate Factored(n: int, l: Mat, a: Mat, i: int, j: int) {
    && (forall p, q | 0 <= p < n && 0 <= q < n && (q > p || p > i || (p == i && q >= j)) :: l(p)(q) == 0.0)
    && (forall p | 0 <= p < i && p < n :: l(p)(p) > 0.0)
    && (i < n && j > i >= 0 ==> l(i)(i) > 0.0)
    && (forall p, q | 0 <= q <= p < n && (p < i || (p == i && q < j)) :: Balanced(l, a, p, q))
  }

  /** The equation of entry `(p, q)`: rows `p` and `q` of the factor multiply to it. */
  ghost predicate Balanced(l: Mat, a: Mat, p: int, q: int) {
    Dot(q + 1, l(p), l(q)) == a(p)(q)
  }

  /** With `v` at `(i, j)`, rows `i` and `j` multiply to the entry of `a` there. */
  ghost predicate Solves(l: Mat, a: Mat, i: int, j: int, v: real) {
    && (i == j ==> v > 0.0)
    && Dot(j, l(i), l(j)) + v * (if i == j then v else l(j)(j)) == a(i)(j)
  }

  /** Writing entry `(i, j)` extends the final part, when the new entry balances its equation. */
  lemma FactoredStep(n: int, l: Mat, l': Mat, a: Mat, i: int, j: int, v: real)
    requires 0 <= j <= i < n
    requires Factored(n, l, a, i, j)
    requires forall p, q :: l'(p)(q) == if p == i && q == j then v else l(p)(q)
    requires Solves(l, a, i, j, v)
    ensures Factored(n, l', a, i, j + 1)
  {
    forall p, q | 0 <= q <= p < n && (p < i || (p == i && q < j + 1))
      ensures Balanced(l', a, p, q)
    {
      if p == i && q == j {
        DotCong(j, l'(i), l'(j), l(i), l(j));
        assert Dot(j + 1, l'(i), l'(j)) == Dot(j, l'(i), l'(j)) + l'(i)(j) * l'(j)(j);
      } else {
        assert Balanced(l, a, p, q);
        DotCong(q + 1, l'(p), l'(q), l(p), l(q));
      }
    }
  }

  lemma RootSolves(sqrt: real -> real, l: Mat, a: Mat, i: int, sum: real)
    requires IsSqrt(sqrt) && sum > 0.0
    requires sum == a(i)(i) - Dot(i, l(i), l(i))
    ensures Solves(l, a, i, i, sqrt(sum))
  {
    SqrtPositive(sqrt, sum);
  }

  lemma QuotientSolves(n: int, before: seq<real>, a: Mat, i: int, j: int, sum: real)
    requires |before| == n * n && 0 <= j < i < n
    requires Factored(n, Flat(n, before), a, i, j)
    requires sum == a(i)(j) - Dot(j, Flat(n, before)(i), Flat(n, before)(j))
    ensures before[Cell(n, j, j)] > 0.0
    ensures Solves(Flat(n, before), a, i, j, sum / before[Cell(n, j, j)])
  {
    var d := Flat(n, before)(j)(j);
    assert d == before[Cell(n, j, j)] > 0.0;
    assert sum / d * d == sum;
  }

  /** The same step, on the buffer. */
  lemma Stored(n: int, before: seq<real>, after: seq<real>, a: Mat, i: int, j: int, v: real)
    requires |before| == n * n && 0 <= j <= i < n
    requires after == before[Cell(n, i, j) := v]
    requires Factored(n, Flat(n, before), a, i, j)
    requires Solves(Flat(n, before), a, i, j, v)
    ensures Factored(n, Flat(n, after), a, i, j + 1)
  {
    FlatUpdate(n, before, i, j, v);
    FactoredStep(n, Flat(n, before), Flat(n, after), a, i, j, v);
  }

  lemma FactoredNextRow(n: int, l: Mat, a: Mat, i: int)
    requires 0 <= i < n && Factored(n, l, a, i, i + 1)
    ensures Factored(n, l, a, i + 1, 0)
  {
  }

  /** In a lower triangular matrix the inner product of two rows ends at the shorter row. */
  lemma RowProduct(n: int, l: Mat, p: int, q: int)
    requires 0 <= q < n && 0 <= p < n
    requires forall k | q < k < n :: l(q)(k) == 0.0
    ensures Dot(n, l(p), l(q)) == Dot(q + 1, l(p), l(q))
  {
    DotTruncate(q + 1, n, l(p), l(q));
  }

  lemma FactoredComplete(n: int, l: Mat, a: Mat)
    requires 0 <= n && Factored(n, l, a, n, 0)
    ensures IsFactor(n, l, LowerSym(a))
  {
    forall i, j | 0 <= i < n && 0 <= j < n ensures Gram(n, l)(i)(j) == LowerSym(a)(i)(j) {
      if j <= i {
        assert Balanced(l, a, i, j);
        RowProduct(n, l, i, j);
      } else {
        assert Balanced(l, a, j, i);
        RowProduct(n, l, j, i);
        DotSym(n, l(i), l(j));
      }
    }
  }

  // ------------------------------------- a factor exists exactly when positive definite

  /** The transpose of a lower triangular matrix with no zero on its diagonal is onto. */
  lemma {:induction false} BackSolution(m: int, l: Mat, w: Vec) returns (u: Vec)
    requires 0 <= m && LowerTriangular(m, l) && PositiveDiagonal(m, l)
    ensures forall k | 0 <= k < m :: Dot(m, Transpose(l)(k), u) == w(k)
    decreases m
  {
    hide Dot;
    if m == 0 {
      u := Zero();
    } else {
      var r := m - 1;
      var c := w(r) / l(r)(r);
      Quotient(w(r), l(r)(r));
      var v := BackSolution(r, l, Minus(w, Scaled(c, l(r))));
      u := i => if i == r then c else v(i);
      forall k | 0 <= k < m ensures Dot(m, Transpose(l)(k), u) == w(k) {
        var column := Transpose(l)(k);
        DotCong(r, column, u, column, v);
        DotNext(r, column, u, l(r)(k), c);
        if k == r {
          DotSym(r, column, v);
          DotTruncate(0, r, v, column);
          DotEmpty(v, column);
        }
      }
    }
  }

  /** A matrix with a factor is positive definite. */
  lemma FactorPositiveDefinite(n: int, l: Mat, a: Mat)
    requires 0 <= n && IsFactor(n, l, a)
    ensures PositiveDefinite(n, a)
  {
    forall x: Vec | NonZero(n, x) ensures Quad(n, a, x) > 0.0 {
      QuadCong(n, a, Gram(n, l), x);
      GramQuad(n, n, l, x);
      var i := LastNonZero(n, x);
      TransposedEntry(n, l, x, i);
      NormSqPositive(n, MulVec(n, Transpose(l), x));
    }
  }

  lemma {:induction false} LastNonZero(n: int, x: Vec) returns (i: int)
    requires NonZero(n, x)
    ensures 0 <= i < n && x(i) != 0.0 && forall k | i < k < n :: x(k) == 0.0
    decreases n
  {
    if n > 0 && x(n - 1) != 0.0 {
      i := n - 1;
    } else {
      i := LastNonZero(n - 1, x);
    }
  }

  lemma TransposedEntry(n: int, l: Mat, x: Vec, i: int)
    requires 0 <= i < n && LowerTriangular(n, l) && PositiveDiagonal(n, l)
    requires x(i) != 0.0 && forall k | i < k < n :: x(k) == 0.0
    ensures MulVec(n, Transpose(l), x)(i) != 0.0
  {
    var c := Transpose(l)(i);
    DotTruncate(i + 1, n, c, x);
    DotSym(i, c, x);
    DotTruncate(0, i, x, c);
    assert Dot(i + 1, c, x) == l(i)(i) * x(i);
  }

  /** A pivot that is not positive exhibits a direction in which the form is not positive. */
  lemma PivotRefutes(n: int, l: Mat, a: Mat, i: int, pivot: real)
    requires 0 <= i < n && Factored(n, l, a, i, i)
    requires pivot == a(i)(i) - Dot(i, l(i), l(i)) && pivot <= 0.0
    ensures !PositiveDefinite(n, LowerSym(a))
  {
    hide Dot;
    var m := i + 1;
    var x := PivotDirection(n, l, i);
    var s := LowerSym(a);
    // On the leading block the matrix is the Gram matrix of the rows so far, plus the pivot.
    var g: Mat := p => (q => Gram(n, l)(p)(q) + if p == i && q == i then pivot else 0.0);
    forall p, q | 0 <= p < m && 0 <= q < m ensures s(p)(q) == g(p)(q) {
      LeadingEntry(n, l, a, i, pivot, p, q);
      assert Gram(n, l)(p)(q) == Dot(n, l(p), l(q));
    }
    QuadLeading(m, n, s, x);
    QuadCong(m, s, g, x);
    PivotQuad(m, Gram(n, l), g, i, pivot, x);
    GramQuad(m, n, l, x);
    assert NonZero(n, x);
    assert Quad(n, s, x) == pivot;
  }

  /** A vector ending at entry `i` which the transposed factor of the rows so far sends to zero. */
  lemma PivotDirection(n: int, l: Mat, i: int) returns (x: Vec)
    requires 0 <= i < n
    requires LowerTriangular(n, l) && PositiveDiagonal(i, l) && forall k | i <= k < n :: l(i)(k) == 0.0
    ensures x(i) == -1.0 && forall k | i < k < n :: x(k) == 0.0
    ensures NormSq(n, MulVec(i + 1, Transpose(l), x)) == 0.0
  {
    var u := BackSolution(i, l, l(i));
    x := k => if k == i then -1.0 else if 0 <= k < i then u(k) else 0.0;
    var y := MulVec(i + 1, Transpose(l), x);
    forall k | 0 <= k < n ensures y(k) == 0.0 {
      var c := Transpose(l)(k);
      DotCong(i, c, x, c, u);
      assert y(k) == Dot(i, c, u) - l(i)(k);
      if k >= i {
        DotSym(i, c, u);
        DotTruncate(0, i, u, c);
      }
    }
    DotTruncate(0, n, y, y);
  }

  lemma LeadingEntry(n: int, l: Mat, a: Mat, i: int, pivot: real, p: int, q: int)
    requires 0 <= i < n && Factored(n, l, a, i, i)
    requires pivot == a(i)(i) - Dot(i, l(i), l(i))
    requires 0 <= p <= i && 0 <= q <= i
    ensures LowerSym(a)(p)(q) == Dot(n, l(p), l(q)) + if p == i && q == i then pivot else 0.0
  {
    if p == i && q == i {
      DotTruncate(i, n, l(i), l(i));
    } else if q <= p {
      assert Balanced(l, a, p, q);
      RowProduct(n, l, p, q);
    } else {
      assert Balanced(l, a, q, p);
      RowProduct(n, l, q, p);
      DotSym(n, l(p), l(q));
    }
  }

  /** A vector supported on the first `m` entries sees only the leading block. */
  lemma QuadLeading(m: int, n: int, a: Mat, x: Vec)
    requires 0 <= m <= n && forall k | m <= k < n :: x(k) == 0.0
    ensures Quad(n, a, x) == Quad(m, a, x)
  {
    DotSym(n, x, MulVec(n, a, x));
    DotTruncate(m, n, MulVec(n, a, x), x);
    DotSym(m, x, MulVec(n, a, x));
    forall p ensures MulVec(n, a, x)(p) == MulVec(m, a, x)(p) {
      DotTruncate(m, n, a(p), x);
    }
    DotCong(m, x, MulVec(n, a, x), x, MulVec(m, a, x));
  }

  /** Adding `pivot` to the last diagonal entry adds `pivot` times the last square. */
  lemma PivotQuad(m: int, a: Mat, g: Mat, i: int, pivot: real, x: Vec)
    requires 0 <= i && m == i + 1
    requires forall p, q | 0 <= p < m && 0 <= q < m ::
               g(p)(q) == a(p)(q) + if p == i && q == i then pivot else 0.0
    ensures Quad(m, g, x) == Quad(m, a, x) + pivot * (x(i) * x(i))
  {
    var y, z := MulVec(m, a, x), MulVec(m, g, x);
    forall p | 0 <= p < i ensures z(p) == y(p) {
      DotCong(m, g(p), x, a(p), x);
    }
    DotCong(i, g(i), x, a(i), x);
    assert z(i) == Dot(i, a(i), x) + (a(i)(i) + pivot) * x(i);
    assert (a(i)(i) + pivot) * x(i) == a(i)(i) * x(i) + pivot * x(i);
    assert z(i) == y(i) + pivot * x(i);
    DotCong(i, x, z, x, y);
    assert x(i) * (y(i) + pivot * x(i)) == x(i) * y(i) + pivot * (x(i) * x(i));
  }

  /** An entry of `a` less the inner product of the first `j` entries of rows `i` and `j`. */
  method Reduced(a: seq<real>, l: array<real>, n: nat, i: nat, j: nat) returns (sum: real)
    requires |a| == n * n == l.Length && j <= i < n
    ensures sum == Flat(n, a)(i)(j) - Dot(j, Flat(n, l[..])(i), Flat(n, l[..])(j))
  {
    ghost var L := Flat(n, l[..]);
    sum := a[Cell(n, i, j)];
    for k := 0 to j
      invariant sum == Flat(n, a)(i)(j) - Dot(k, L(i), L(j))
    {
      assert L(i)(k) == l[..][Cell(n, i, k)] && L(j)(k) == l[..][Cell(n, j, k)];
      sum := sum - l[Cell(n, i, k)] * l[Cell(n, j, k)];
    }
  }

  /**
   The factor of the symmetric matrix whose lower triangle `a` holds. It is refused exactly
   when that matrix is not positive definite.
   */
  method CholeskyFactor(sqrt: real -> real, a: seq<real>, n: nat) returns (r: Option<seq<real>>)
    requires IsSqrt(sqrt) && |a| == n * n
    ensures r.Some? <==> PositiveDefinite(n, LowerSym(Flat(n, a)))
    ensures r.Some? ==> |r.value| == n * n && IsFactor(n, Flat(n, r.value), LowerSym(Flat(n, a)))
  {
    hide Dot;
    var l := new real[n * n](_ => 0.0);
    ghost var A := Flat(n, a);
    for i := 0 to n
      invariant Factored(n, Flat(n, l[..]), A, i, 0)
    {
      for j := 0 to i + 1
        invariant Factored(n, Flat(n, l[..]), A, i, j)
      {
        ghost var before := l[..];
        ghost var L := Flat(n, before);
        var sum := Reduced(a, l, n, i, j);
        if i == j {
          if sum <= 0.0 {
            PivotRefutes(n, L, A, i, sum);
            return None;
          }
          l[Cell(n, i, i)] := sqrt(sum);
          RootSolves(sqrt, L, A, i, sum);
          Stored(n, before, l[..], A, i, i, sqrt(sum));
        } else {
          QuotientSolves(n, before, A, i, j, sum);
          l[Cell(n, i, j)] := sum / l[Cell(n, j, j)];
          Stored(n, before, l[..], A, i, j, sum / before[Cell(n, j, j)]);
        }
      }
      FactoredNextRow(n, Flat(n, l[..]), A, i);
    }
    FactoredComplete(n, Flat(n, l[..]), A);
    FactorPositiveDefinite(n, Flat(n, l[..]), LowerSym(A));
    r := Some(l[..]);
  }

  // ------------------------------------------------------------ triangular solves

  /** Setting entry `i` of a vector that was zero there adds one term to its inner products. */
  lemma DotSet(n: int, w: Vec, x: Vec, x': Vec, i: int, term: real)
    requires 0 <= i < n && x(i) == 0.0 && term == x'(i) * w(i)
    requires forall k | 0 <= k < n && k != i :: x'(k) == x(k)
    ensures Dot(n, w, x') == Dot(n, w, x) + term
  {
    hide Dot;
    var v := x'(i);
    var step := Scaled(v, Unit(i));
    DotCong(n, w, x', w, Plus(x, step)) by {
      forall k | 0 <= k < n ensures x'(k) == Plus(x, step)(k) {
      }
    }
    DotPlus(n, w, x, step);
    DotScaled(n, w, v, Unit(i));
    DotUnit(n, w, i);
  }

  ghost predicate ForwardSolved(n: int, l: Mat, z: Vec, b: Vec, i: int) {
    && (forall k | i <= k < n :: z(k) == 0.0)
    && (forall p | 0 <= p < i :: MulVec(n, l, z)(p) == b(p))
  }

  ghost predicate BackSolved(n: int, l: Mat, x: Vec, z: Vec, i: int) {
    && (forall k | 0 <= k < i :: x(k) == 0.0)
    && (forall p | i <= p < n :: MulVec(n, Transpose(l), x)(p) == z(p))
  }

  lemma ForwardStep(n: int, l: Mat, z: Vec, z': Vec, b: Vec, i: int, sum: real)
    requires 0 <= i < n && LowerTriangular(n, l)
    requires ForwardSolved(n, l, z, b, i)
    requires sum == b(i) - Dot(i, l(i), z)
    requires z'(i) * l(i)(i) == sum && forall k | 0 <= k < n && k != i :: z'(k) == z(k)
    ensures ForwardSolved(n, l, z', b, i + 1)
  {
    hide Dot;
    forall p | 0 <= p < i + 1 ensures MulVec(n, l, z')(p) == b(p) {
      if p == i {
        DotSet(n, l(i), z, z', i, sum);
        DotTruncate(i, n, l(i), z);
      } else {
        DotSet(n, l(p), z, z', i, 0.0);
        assert MulVec(n, l, z)(p) == b(p);
      }
    }
  }

  lemma BackStep(n: int, l: Mat, x: Vec, x': Vec, z: Vec, i: int, sum: real)
    requires 0 <= i < n && LowerTriangular(n, l)
    requires BackSolved(n, l, x, z, i + 1)
    requires sum == z(i) - Dot(n, Transpose(l)(i), x)
    requires x'(i) * l(i)(i) == sum && forall k | 0 <= k < n && k != i :: x'(k) == x(k)
    ensures BackSolved(n, l, x', z, i)
  {
    hide Dot;
    forall p | i <= p < n ensures MulVec(n, Transpose(l), x')(p) == z(p) {
      if p == i {
        DotSet(n, Transpose(l)(i), x, x', i, sum);
      } else {
        DotSet(n, Transpose(l)(p), x, x', i, 0.0);
        assert MulVec(n, Transpose(l), x)(p) == z(p);
      }
    }
  }

  /** The solves compose: first by the factor, then by its transpose. */
  lemma SolvesCompose(n: int, l: Mat, z: Vec, x: Vec, b: Vec)
    requires 0 <= n && ForwardSolved(n, l, z, b, n) && BackSolved(n, l, x, z, 0)
    ensures SameVec(n, MulVec(n, Gram(n, l), x), b)
  {
    forall i | 0 <= i < n ensures MulVec(n, Gram(n, l), x)(i) == b(i) {
      GramMulVec(n, n, l, x, i);
      DotCong(n, l(i), MulVec(n, Transpose(l), x), l(i), z);
      assert MulVec(n, l, z)(i) == b(i);
    }
  }

  lemma VecUpdate(s: seq<real>, i: nat, v: real)
    requires i < |s|
    ensures forall k :: VecOf(s[i := v])(k) == if k == i then v else VecOf(s)(k)
  {
    var u, w := VecOf(s), VecOf(s[i := v]);
    forall k ensures w(k) == if k == i then v else u(k) {
      assert u(k) == if 0 <= k < |s| then s[k] else 0.0;
    }
  }

  /** Solve `l` times `z` equal to `b`, from the top. */
  method ForwardSolve(l: seq<real>, b: seq<real>, n: nat) returns (r: seq<real>)
    requires |l| == n * n && |b| == n
    requires LowerTriangular(n, Flat(n, l)) && PositiveDiagonal(n, Flat(n, l))
    ensures |r| == n
    ensures ForwardSolved(n, Flat(n, l), VecOf(r), VecOf(b), n)
  {
    hide Dot;
    ghost var L, B := Flat(n, l), VecOf(b);
    var z := new real[n](_ => 0.0);
    for i := 0 to n
      invariant ForwardSolved(n, L, VecOf(z[..]), B, i)
    {
      ghost var done := z[..];
      var sum := b[i];
      DotEmpty(L(i), VecOf(done));
      for k := 0 to i
        invariant z[..] == done
        invariant sum == B(i) - Dot(k, L(i), VecOf(done))
      {
        DotNext(k, L(i), VecOf(done), l[Cell(n, i, k)], done[k]);
        sum := sum - l[Cell(n, i, k)] * z[k];
      }
      assert l[Cell(n, i, i)] == L(i)(i) > 0.0;
      var v := sum / l[Cell(n, i, i)];
      Quotient(sum, l[Cell(n, i, i)]);
      z[i] := v;
      assert z[..] == done[i := v];
      VecUpdate(done, i, v);
      ForwardStep(n, L, VecOf(done), VecOf(z[..]), B, i, sum);
    }
    r := z[..];
  }

  /** Solve the transpose of `l` times `x` equal to `z`, from the bottom. */
  method BackSolve(l: seq<real>, z: seq<real>, n: nat) returns (r: seq<real>)
    requires |l| == n * n && |z| == n
    requires LowerTriangular(n, Flat(n, l)) && PositiveDiagonal(n, Flat(n, l))
    ensures |r| == n
    ensures BackSolved(n, Flat(n, l), VecOf(r), VecOf(z), 0)
  {
    hide Dot;
    ghost var L, Z := Flat(n, l), VecOf(z);
    var x := new real[n](_ => 0.0);
    for i := n downto 0
      invariant BackSolved(n, L, VecOf(x[..]), Z, i)
    {
      ghost var done := x[..];
      ghost var column := Transpose(L)(i);
      var sum := z[i];
      DotTruncate(0, i + 1, column, VecOf(done));
      DotEmpty(column, VecOf(done));
      for k := i + 1 to n
        invariant x[..] == done
        invariant sum == Z(i) - Dot(k, column, VecOf(done))
      {
        DotNext(k, column, VecOf(done), l[Cell(n, k, i)], done[k]);
        sum := sum - l[Cell(n, k, i)] * x[k];
      }
      assert l[Cell(n, i, i)] == L(i)(i) > 0.0;
      var v := sum / l[Cell(n, i, i)];
      Quotient(sum, l[Cell(n, i, i)]);
      x[i] := v;
      assert x[..] == done[i := v];
      VecUpdate(done, i, v);
      BackStep(n, L, VecOf(done), VecOf(x[..]), Z, i, sum);
    }
    r := x[..];
  }

  /** Solve `l` times its transpose times `x` equal to `b`. */
  method CholeskyApply(l: seq<real>, b: seq<real>, n: nat) returns (r: seq<real>)
    requires |l| == n * n && |b| == n
    requires LowerTriangular(n, Flat(n, l)) && PositiveDiagonal(n, Flat(n, l))
    ensures |r| == n
    ensures SameVec(n, MulVec(n, Gram(n, Flat(n, l)), VecOf(r)), VecOf(b))
  {
    var z := ForwardSolve(l, b, n);
    r := BackSolve(l, z, n);
    SolvesCompose(n, Flat(n, l), VecOf(z), VecOf(r), VecOf(b));
  }
}
