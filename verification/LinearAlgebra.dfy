/**
 Vectors and matrices of reals of any size, as total functions of their indices: the
 vocabulary in which the flat row-major buffers of the gravity identification are specified.
 A size is passed to the operations, never stored.
 */
module LinearAlgebra {
  import opened Reals

  type Vec = int -> real

  type Mat = int -> Vec

  /** A buffer read as a vector; zero outside. */
  ghost function VecOf(s: seq<real>): Vec {
    i => if 0 <= i < |s| then s[i] else 0.0
  }

  ghost function Zero(): Vec {
    i => 0.0
  }

  ghost function Unit(a: int): Vec {
    i => if i == a then 1.0 else 0.0
  }

  ghost function Plus(u: Vec, v: Vec): Vec {
    i => u(i) + v(i)
  }

  ghost function Minus(u: Vec, v: Vec): Vec {
    i => u(i) - v(i)
  }

  ghost function Scaled(c: real, v: Vec): Vec {
    i => c * v(i)
  }

  ghost function Transpose(a: Mat): Mat {
    j => (i => a(i)(j))
  }

  ghost predicate SameVec(n: int, u: Vec, v: Vec) {
    forall i | 0 <= i < n :: u(i) == v(i)
  }

  ghost predicate NonZero(n: int, x: Vec) {
    exists i | 0 <= i < n :: x(i) != 0.0
  }

  /** The inner product of the first `n` entries. */
  ghost function Dot(n: int, u: Vec, v: Vec): real
    decreases n
  {
    if n <= 0 then 0.0 else Dot(n - 1, u, v) + u(n - 1) * v(n - 1)
  }

  ghost function NormSq(n: int, v: Vec): real {
    Dot(n, v, v)
  }

  /** `a` times `x`, where each row of `a` has `n` entries. */
  ghost function MulVec(n: int, a: Mat, x: Vec): Vec {
    i => Dot(n, a(i), x)
  }

  ghost function Quad(n: int, a: Mat, x: Vec): real {
    Dot(n, x, MulVec(n, a, x))
  }

  /** The inner products of the rows of `b`, which have `k` entries each. */
  ghost function Gram(k: int, b: Mat): Mat {
    i => (j => Dot(k, b(i), b(j)))
  }

  /** `a` with `weight` added down the diagonal. */
  ghost function Ridged(a: Mat, weight: real): Mat {
    i => (j => if i == j then a(i)(j) + weight else a(i)(j))
  }

  ghost predicate SameMat(n: int, a: Mat, b: Mat) {
    forall i, j | 0 <= i < n && 0 <= j < n :: a(i)(j) == b(i)(j)
  }

  ghost predicate PositiveDefinite(n: int, a: Mat) {
    forall x: Vec | NonZero(n, x) :: Quad(n, a, x) > 0.0
  }

  // ------------------------------------------------------------ inner products

  lemma DotEmpty(u: Vec, v: Vec)
    ensures Dot(0, u, v) == 0.0
  {
  }

  lemma DotNext(k: nat, u: Vec, v: Vec, p: real, q: real)
    requires u(k) == p && v(k) == q
    ensures Dot(k + 1, u, v) == Dot(k, u, v) + p * q
  {
  }

  lemma {:induction false} DotCong(n: int, u: Vec, v: Vec, u': Vec, v': Vec)
    requires SameVec(n, u, u') && SameVec(n, v, v')
    ensures Dot(n, u, v) == Dot(n, u', v')
    decreases n
  {
    if n > 0 {
      DotCong(n - 1, u, v, u', v');
    }
  }

  lemma {:induction false} DotSym(n: int, u: Vec, v: Vec)
    ensures Dot(n, u, v) == Dot(n, v, u)
    decreases n
  {
    if n > 0 {
      DotSym(n - 1, u, v);
    }
  }

  lemma {:induction false} DotPlus(n: int, w: Vec, u: Vec, v: Vec)
    ensures Dot(n, w, Plus(u, v)) == Dot(n, w, u) + Dot(n, w, v)
    decreases n
  {
    if n > 0 {
      DotPlus(n - 1, w, u, v);
    }
  }

  lemma {:induction false} DotMinus(n: int, w: Vec, u: Vec, v: Vec)
    ensures Dot(n, w, Minus(u, v)) == Dot(n, w, u) - Dot(n, w, v)
    decreases n
  {
    if n > 0 {
      DotMinus(n - 1, w, u, v);
    }
  }

  lemma {:induction false} DotScaled(n: int, w: Vec, c: real, v: Vec)
    ensures Dot(n, w, Scaled(c, v)) == c * Dot(n, w, v)
    decreases n
  {
    if n > 0 {
      DotScaled(n - 1, w, c, v);
      var p, q := Dot(n - 1, w, v), w(n - 1) * v(n - 1);
      assert c * (p + q) == c * p + c * q;
    }
  }

  lemma {:induction false} NormSqNonNegative(n: int, v: Vec)
    ensures NormSq(n, v) >= 0.0
    decreases n
  {
    if n > 0 {
      NormSqNonNegative(n - 1, v);
    }
  }

  /** No entry's square exceeds the squared norm. */
  lemma {:induction false} NormSqCovers(n: int, v: Vec, i: int)
    requires 0 <= i < n
    ensures v(i) * v(i) <= NormSq(n, v)
    decreases n
  {
    if i < n - 1 {
      NormSqCovers(n - 1, v, i);
    } else {
      NormSqNonNegative(n - 1, v);
    }
  }

  lemma {:induction false} NormSqPositiveAt(n: int, v: Vec, i: int)
    requires 0 <= i < n && v(i) != 0.0
    ensures NormSq(n, v) > 0.0
    decreases n
  {
    assert NormSq(n, v) == NormSq(n - 1, v) + Square(v(n - 1));
    if i < n - 1 {
      NormSqPositiveAt(n - 1, v, i);
    } else {
      NormSqNonNegative(n - 1, v);
    }
  }

  lemma NormSqPositive(n: int, v: Vec)
    requires NonZero(n, v)
    ensures NormSq(n, v) > 0.0
  {
    var i :| 0 <= i < n && v(i) != 0.0;
    NormSqPositiveAt(n, v, i);
  }

  /** Entries that vanish from `m` on do not count. */
  lemma {:induction false} DotTruncate(m: int, n: int, u: Vec, v: Vec)
    requires 0 <= m <= n
    requires forall i | m <= i < n :: v(i) == 0.0
    ensures Dot(n, u, v) == Dot(m, u, v)
    decreases n
  {
    if m < n {
      DotTruncate(m, n - 1, u, v);
    }
  }

  lemma {:induction false} DotUnit(n: int, u: Vec, a: int)
    requires 0 <= a < n
    ensures Dot(n, u, Unit(a)) == u(a)
    decreases n
  {
    if a < n - 1 {
      DotUnit(n - 1, u, a);
    } else {
      DotTruncate(0, a, u, Unit(a));
    }
  }

  /** `(u + v).w`, from the left. */
  lemma DotPlusLeft(n: int, u: Vec, v: Vec, w: Vec)
    ensures Dot(n, Plus(u, v), w) == Dot(n, u, w) + Dot(n, v, w)
  {
    DotSym(n, Plus(u, v), w);
    DotPlus(n, w, u, v);
    DotSym(n, u, w);
    DotSym(n, v, w);
  }

  /** The square of a sum. */
  lemma NormSqPlus(n: int, u: Vec, v: Vec)
    ensures NormSq(n, Plus(u, v)) == NormSq(n, u) + 2.0 * Dot(n, u, v) + NormSq(n, v)
  {
    DotPlusLeft(n, u, v, Plus(u, v));
    DotPlus(n, u, u, v);
    DotPlus(n, v, u, v);
    DotSym(n, u, v);
  }

  // ------------------------------------------------------------------ matrices

  /** Moving a matrix to the other side of an inner product transposes it. */
  lemma {:induction false} Adjoint(m: int, n: int, a: Mat, u: Vec, x: Vec)
    ensures Dot(m, u, MulVec(n, a, x)) == Dot(n, MulVec(m, Transpose(a), u), x)
    decreases m
  {
    var left := MulVec(m, Transpose(a), u);
    if m <= 0 {
      DotSym(n, left, x);
      assert forall j :: left(j) == Dot(m, Transpose(a)(j), u) == 0.0;
      DotTruncate(0, if n <= 0 then 0 else n, x, left);
    } else {
      var rest := MulVec(m - 1, Transpose(a), u);
      var last := Scaled(u(m - 1), a(m - 1));
      Adjoint(m - 1, n, a, u, x);
      DotCong(n, left, x, Plus(rest, last), x) by {
        forall j | 0 <= j < n ensures left(j) == Plus(rest, last)(j) {
          assert left(j) == Dot(m, Transpose(a)(j), u);
          assert rest(j) == Dot(m - 1, Transpose(a)(j), u);
        }
      }
      DotPlusLeft(n, rest, last, x);
      DotSym(n, last, x);
      DotScaled(n, x, u(m - 1), a(m - 1));
      DotSym(n, x, a(m - 1));
    }
  }

  /** The Gram matrix of the rows of `b` maps `x` to `b` times `b` transposed times `x`. */
  lemma GramMulVec(n: int, k: int, b: Mat, x: Vec, i: int)
    ensures MulVec(n, Gram(k, b), x)(i) == Dot(k, b(i), MulVec(n, Transpose(b), x))
  {
    DotCong(n, Gram(k, b)(i), x, MulVec(k, b, b(i)), x) by {
      forall j | 0 <= j < n ensures Gram(k, b)(i)(j) == MulVec(k, b, b(i))(j) {
        DotSym(k, b(i), b(j));
      }
    }
    DotSym(n, MulVec(k, b, b(i)), x);
    Adjoint(n, k, b, x, b(i));
    DotSym(k, MulVec(n, Transpose(b), x), b(i));
  }

  /** The quadratic form of a Gram matrix is a squared norm. */
  lemma GramQuad(n: int, k: int, b: Mat, x: Vec)
    ensures Quad(n, Gram(k, b), x) == NormSq(k, MulVec(n, Transpose(b), x))
  {
    var y := MulVec(n, Transpose(b), x);
    DotCong(n, x, MulVec(n, Gram(k, b), x), x, MulVec(k, b, y)) by {
      forall i | 0 <= i < n ensures MulVec(n, Gram(k, b), x)(i) == MulVec(k, b, y)(i) {
        GramMulVec(n, k, b, x, i);
      }
    }
    Adjoint(n, k, b, x, y);
  }

  lemma {:induction false} RidgedMulVec(n: int, a: Mat, weight: real, x: Vec, i: int)
    requires 0 <= n
    ensures Dot(n, Ridged(a, weight)(i), x) == Dot(n, a(i), x) + (if 0 <= i < n then weight * x(i) else 0.0)
    decreases n
  {
    if n > 0 {
      RidgedMulVec(n - 1, a, weight, x, i);
    }
  }

  lemma RidgedQuad(n: int, a: Mat, weight: real, x: Vec)
    requires 0 <= n
    ensures Quad(n, Ridged(a, weight), x) == Quad(n, a, x) + weight * NormSq(n, x)
  {
    var both := Plus(MulVec(n, a, x), Scaled(weight, x));
    DotCong(n, x, MulVec(n, Ridged(a, weight), x), x, both) by {
      forall i | 0 <= i < n ensures MulVec(n, Ridged(a, weight), x)(i) == both(i) {
        RidgedMulVec(n, a, weight, x, i);
      }
    }
    DotPlus(n, x, MulVec(n, a, x), Scaled(weight, x));
    DotScaled(n, x, weight, x);
  }

  /** Row inner products with a positive ridge are always positive definite. */
  lemma RidgedGramPositiveDefinite(n: int, k: int, b: Mat, weight: real)
    requires 0 <= n && weight > 0.0
    ensures PositiveDefinite(n, Ridged(Gram(k, b), weight))
  {
    forall x: Vec | NonZero(n, x) ensures Quad(n, Ridged(Gram(k, b), weight), x) > 0.0 {
      RidgedQuad(n, Gram(k, b), weight, x);
      GramQuad(n, k, b, x);
      NormSqNonNegative(k, MulVec(n, Transpose(b), x));
      NormSqPositive(n, x);
      assert weight * NormSq(n, x) > 0.0;
    }
  }

  lemma MulVecMinus(n: int, a: Mat, x: Vec, y: Vec, i: int)
    ensures MulVec(n, a, Minus(x, y))(i) == MulVec(n, a, x)(i) - MulVec(n, a, y)(i)
  {
    DotMinus(n, a(i), x, y);
  }

  /** A positive definite system has at most one solution. */
  lemma SolutionUnique(n: int, a: Mat, x: Vec, y: Vec)
    requires PositiveDefinite(n, a)
    requires SameVec(n, MulVec(n, a, x), MulVec(n, a, y))
    ensures SameVec(n, x, y)
  {
    var d := Minus(x, y);
    if NonZero(n, d) {
      DotTruncate(0, if n <= 0 then 0 else n, d, MulVec(n, a, d)) by {
        forall i | 0 <= i < n ensures MulVec(n, a, d)(i) == 0.0 {
          MulVecMinus(n, a, x, y, i);
        }
      }
      assert Quad(n, a, d) == 0.0;
    } else {
      forall i | 0 <= i < n ensures x(i) == y(i) {
        assert d(i) == 0.0;
      }
    }
  }

  lemma QuadCong(n: int, a: Mat, b: Mat, x: Vec)
    requires SameMat(n, a, b)
    ensures Quad(n, a, x) == Quad(n, b, x)
  {
    DotCong(n, x, MulVec(n, a, x), x, MulVec(n, b, x)) by {
      forall i | 0 <= i < n ensures MulVec(n, a, x)(i) == MulVec(n, b, x)(i) {
        DotCong(n, a(i), x, b(i), x);
      }
    }
  }

  lemma PositiveDefiniteCong(n: int, a: Mat, b: Mat)
    requires SameMat(n, a, b)
    ensures PositiveDefinite(n, a) <==> PositiveDefinite(n, b)
  {
    forall x: Vec ensures Quad(n, a, x) == Quad(n, b, x) {
      QuadCong(n, a, b, x);
    }
  }
}
