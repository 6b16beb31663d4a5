/**
 * The vector helpers of the database back ends: `dot` (a left fold over the
 * zipped pairs), `norm` (the square root of a vector's dot product with
 * itself), `cosine` with its zero-norm guard, and `euclidean` (the square
 * root of the summed squared differences over the zipped pairs). The same
 * `cosine`, `dot` and `norm` appear in `cosine_db.rs` and in
 * `database_fns.rs`; they are defined once here.
 */
module Similarity {
  import opened Primitives

  /** Sum of `v1[i] * v2[i]` over the first `n` zipped pairs, in fold order. */
  function DotUpTo(v1: seq<real>, v2: seq<real>, n: nat): (dot: real)
    requires n <= |v1| && n <= |v2|
  {
    if n == 0 then 0.0 else DotUpTo(v1, v2, n - 1) + v1[n - 1] * v2[n - 1]
  }

  /** `dot`: `zip` stops at the shorter vector. */
  function Dot(v1: seq<real>, v2: seq<real>): (dot: real)
  {
    DotUpTo(v1, v2, Min(|v1|, |v2|))
  }

  /** `norm`. */
  function Norm(v: seq<real>, sqrt: Root): (norm: real)
  {
    sqrt(Dot(v, v))
  }

  /** `cosine`: the normalised dot product, or 0 when a norm product is not positive. */
  function Cosine(v1: seq<real>, v2: seq<real>, sqrt: Root): (score: real)
  {
    var norms := Norm(v1, sqrt) * Norm(v2, sqrt);
    if norms > 0.0 then Dot(v1, v2) / (Norm(v1, sqrt) * Norm(v2, sqrt)) else 0.0
  }

  /** Sum of `(v1[i] - v2[i])^2` over the first `n` zipped pairs. */
  function SquaredDistanceUpTo(v1: seq<real>, v2: seq<real>, n: nat): (s: real)
    requires n <= |v1| && n <= |v2|
    ensures s >= 0.0
  {
    if n == 0 then 0.0
    else SquaredDistanceUpTo(v1, v2, n - 1) + (v1[n - 1] - v2[n - 1]) * (v1[n - 1] - v2[n - 1])
  }

  /** `euclidean`. */
  function Euclidean(v1: seq<real>, v2: seq<real>, sqrt: Root): (dist: real)
  {
    sqrt(SquaredDistanceUpTo(v1, v2, Min(|v1|, |v2|)))
  }

  /** A square root that is exact on the non-negative reals. */
  ghost predicate ExactRoot(sqrt: real -> real)
  {
    forall x: real :: x >= 0.0 ==> sqrt(x) >= 0.0 && sqrt(x) * sqrt(x) == x
  }

  /**
   * A vector's dot product with itself is non-negative, only grows along the
   * vector, and is positive exactly when a non-zero element has been summed.
   */
  lemma {:induction false} SelfDotGrows(v: seq<real>, m: nat, n: nat)
    requires m <= n <= |v|
    ensures 0.0 <= DotUpTo(v, v, m) <= DotUpTo(v, v, n)
    ensures DotUpTo(v, v, n) > 0.0 <==> exists i :: 0 <= i < n && v[i] != 0.0
    decreases n
  {
    if n > 0 {
      if m == n {
        SelfDotGrows(v, m - 1, n - 1);
      } else {
        SelfDotGrows(v, m, n - 1);
      }
      AddSquare(DotUpTo(v, v, n - 1), DotUpTo(v, v, n), v[n - 1]);
    }
  }

  lemma PositiveProduct(a: real, b: real)
    requires a > 0.0 && b > 0.0
    ensures a * b > 0.0
  {
  }

  lemma AddPositiveProduct(d: real, e: real, a: real, b: real)
    requires a > 0.0 && b > 0.0 && e == d + a * b
    ensures e > d
  {
    PositiveProduct(a, b);
  }

  lemma AddNegativeProduct(d: real, e: real, a: real, b: real)
    requires a < 0.0 && b < 0.0 && e == d + a * b
    ensures e > d
  {
  }

  /** Adding a square never decreases a sum, and strictly increases it unless the squared value is 0. */
  lemma AddSquare(d: real, e: real, x: real)
    requires e == d + x * x
    ensures e >= d
    ensures x != 0.0 ==> e > d
    ensures x == 0.0 ==> e == d
  {
    if x > 0.0 {
      AddPositiveProduct(d, e, x, x);
    } else if x < 0.0 {
      AddNegativeProduct(d, e, x, x);
    }
  }

  /** Every element of `v` is 0. */
  ghost predicate IsZero(v: seq<real>)
  {
    forall i :: 0 <= i < |v| ==> v[i] == 0.0
  }

  /** The norm is non-negative, and zero exactly on the zero vector. */
  lemma NormZeroIffZeroVector(v: seq<real>, sqrt: Root)
    ensures Norm(v, sqrt) >= 0.0
    ensures Norm(v, sqrt) == 0.0 <==> IsZero(v)
  {
    SelfDotGrows(v, |v|, |v|);
  }

  lemma {:induction false} DotUpToSymmetric(v1: seq<real>, v2: seq<real>, n: nat)
    requires n <= |v1| && n <= |v2|
    ensures DotUpTo(v1, v2, n) == DotUpTo(v2, v1, n)
  {
    if n > 0 {
      DotUpToSymmetric(v1, v2, n - 1);
    }
  }

  /**
   * The guard of `cosine`: when either vector is all zeros the norm product
   * is 0 and the score is 0; otherwise the score is the dot product over the
   * product of the norms. The score does not depend on the argument order.
   */
  lemma CosineGuard(v1: seq<real>, v2: seq<real>, sqrt: Root)
    ensures IsZero(v1) || IsZero(v2) ==> Cosine(v1, v2, sqrt) == 0.0
    ensures !IsZero(v1) && !IsZero(v2) ==>
      Norm(v1, sqrt) * Norm(v2, sqrt) > 0.0 &&
      Cosine(v1, v2, sqrt) == Dot(v1, v2) / (Norm(v1, sqrt) * Norm(v2, sqrt))
    ensures Cosine(v1, v2, sqrt) == Cosine(v2, v1, sqrt)
  {
    NormZeroIffZeroVector(v1, sqrt);
    NormZeroIffZeroVector(v2, sqrt);
    DotUpToSymmetric(v1, v2, Min(|v1|, |v2|));
    var n1, n2 := Norm(v1, sqrt), Norm(v2, sqrt);
    assert n1 * n2 == n2 * n1;
    if n1 > 0.0 && n2 > 0.0 {
      assert n1 * n2 > 0.0;
    }
  }

  /** Sum of `(a[i] * y - x * b[i])^2` over the first `n` pairs. */
  function CrossSquares(a: seq<real>, b: seq<real>, n: nat, x: real, y: real): (s: real)
    requires n <= |a| && n <= |b|
    ensures s >= 0.0
  {
    if n == 0 then 0.0
    else CrossSquares(a, b, n - 1, x, y) + (a[n - 1] * y - x * b[n - 1]) * (a[n - 1] * y - x * b[n - 1])
  }

  lemma Expand(p: real, q: real, x: real, y: real)
    ensures (p * y - x * q) * (p * y - x * q) == (p * p) * (y * y) - 2.0 * (p * q) * (x * y) + (q * q) * (x * x)
  {
  }

  lemma Regroup(aa: real, ab: real, bb: real, pp: real, pq: real, qq: real, xx: real, xy: real, yy: real)
    ensures (aa * yy - 2.0 * ab * xy + bb * xx) + (pp * yy - 2.0 * pq * xy + qq * xx)
         == (aa + pp) * yy - 2.0 * (ab + pq) * xy + (bb + qq) * xx
  {
  }

  /** The cross squares expand into the three dot products. */
  lemma {:induction false} CrossSquaresExpand(a: seq<real>, b: seq<real>, n: nat, x: real, y: real)
    requires n <= |a| && n <= |b|
    ensures CrossSquares(a, b, n, x, y)
         == DotUpTo(a, a, n) * (y * y) - 2.0 * DotUpTo(a, b, n) * (x * y) + DotUpTo(b, b, n) * (x * x)
  {
    if n > 0 {
      CrossSquaresExpand(a, b, n - 1, x, y);
      var p, q := a[n - 1], b[n - 1];
      Expand(p, q, x, y);
      Regroup(DotUpTo(a, a, n - 1), DotUpTo(a, b, n - 1), DotUpTo(b, b, n - 1), p * p, p * q, q * q, x * x, x * y, y * y);
    }
  }

  /**
   * One step of Cauchy-Schwarz on plain numbers: the old sums `aa`, `bb`,
   * `ab`, the new pair `x`, `y`, the non-negative cross square sum `cross`
   * and the new sums `aa'`, `bb'`, `ab'`.
   */
  lemma CauchySchwarzStep(aa: real, bb: real, ab: real, x: real, y: real, cross: real, aa': real, bb': real, ab': real)
    requires ab * ab <= aa * bb && cross >= 0.0
    requires cross == aa * (y * y) - 2.0 * ab * (x * y) + bb * (x * x)
    requires aa' == aa + x * x && bb' == bb + y * y && ab' == ab + x * y
    ensures ab' * ab' <= aa' * bb'
  {
    assert ab' * ab' == ab * ab + 2.0 * ab * (x * y) + (x * y) * (x * y);
    assert aa' * bb' == aa * bb + aa * (y * y) + bb * (x * x) + (x * x) * (y * y);
    assert (x * x) * (y * y) == (x * y) * (x * y);
  }

  /** Cauchy-Schwarz carried from the first `n - 1` pairs to the first `n`. */
  lemma CauchySchwarzExtend(a: seq<real>, b: seq<real>, n: nat)
    requires 0 < n <= |a| && n <= |b|
    requires DotUpTo(a, b, n - 1) * DotUpTo(a, b, n - 1) <= DotUpTo(a, a, n - 1) * DotUpTo(b, b, n - 1)
    ensures DotUpTo(a, b, n) * DotUpTo(a, b, n) <= DotUpTo(a, a, n) * DotUpTo(b, b, n)
  {
    var x, y := a[n - 1], b[n - 1];
    CrossSquaresExpand(a, b, n - 1, x, y);
    CauchySchwarzStep(DotUpTo(a, a, n - 1), DotUpTo(b, b, n - 1), DotUpTo(a, b, n - 1), x, y, CrossSquares(a, b, n - 1, x, y),
      DotUpTo(a, a, n), DotUpTo(b, b, n), DotUpTo(a, b, n));
  }

  /** The Cauchy-Schwarz inequality on the first `n` zipped pairs. */
  lemma {:induction false} CauchySchwarz(a: seq<real>, b: seq<real>, n: nat)
    requires n <= |a| && n <= |b|
    ensures DotUpTo(a, b, n) * DotUpTo(a, b, n) <= DotUpTo(a, a, n) * DotUpTo(b, b, n)
  {
    if n > 0 {
      CauchySchwarz(a, b, n - 1);
      CauchySchwarzExtend(a, b, n);
    }
  }

  lemma SquareMonotone(x: real, y: real)
    requires 0.0 <= x && 0.0 <= y
    ensures x * x <= y * y ==> x <= y
  {
    if x > y {
      assert x * x - y * y == (x - y) * (x + y);
      PositiveProduct(x - y, x + y);
    }
  }

  lemma RatioWithin(d: real, p: real)
    requires p > 0.0 && d * d <= p * p
    ensures -1.0 <= d / p <= 1.0
  {
    var m := if d < 0.0 then -d else d;
    assert m * m == d * d;
    SquareMonotone(m, p);
    assert d / p * p == d;
  }

  lemma ProductMonotone(a: real, b: real, c: real, d: real)
    requires 0.0 <= a <= c && 0.0 <= b <= d
    ensures a * b <= c * d
  {
    assert a * b <= c * b;
    assert c * b <= c * d;
  }

  lemma SelfDotNonNegative(v: seq<real>)
    ensures Dot(v, v) >= 0.0
  {
    SelfDotGrows(v, |v|, |v|);
  }

  lemma RootSquared(sqrt: Root, s: real)
    requires ExactRoot(sqrt) && s >= 0.0
    ensures sqrt(s) >= 0.0 && sqrt(s) * sqrt(s) == s
  {
  }

  /** Two non-negative numbers with the same square are equal. */
  lemma SquareRootUnique(r: real, s: real)
    requires 0.0 <= r && 0.0 <= s && r * r == s * s
    ensures r == s
  {
    SquareMonotone(r, s);
    SquareMonotone(s, r);
  }

  /** An exact root undoes squaring on non-negative numbers. */
  lemma RootOfSquare(sqrt: Root, s: real)
    requires ExactRoot(sqrt) && s >= 0.0
    ensures sqrt(s * s) == s
  {
    assert s * s >= 0.0;
    RootSquared(sqrt, s * s);
    SquareRootUnique(sqrt(s * s), s);
  }

  lemma NormSquared(v: seq<real>, sqrt: Root)
    requires ExactRoot(sqrt)
    ensures Norm(v, sqrt) * Norm(v, sqrt) == Dot(v, v)
  {
    SelfDotNonNegative(v);
    RootSquared(sqrt, Dot(v, v));
  }

  /** Cauchy-Schwarz carried to the full vectors: the zipped dot product against the two self products. */
  lemma DotSquareBound(v1: seq<real>, v2: seq<real>)
    ensures Dot(v1, v2) * Dot(v1, v2) <= Dot(v1, v1) * Dot(v2, v2)
  {
    var n := Min(|v1|, |v2|);
    SelfDotGrows(v1, n, |v1|);
    SelfDotGrows(v2, n, |v2|);
    CauchySchwarz(v1, v2, n);
    ProductMonotone(DotUpTo(v1, v1, n), DotUpTo(v2, v2, n), Dot(v1, v1), Dot(v2, v2));
  }

  lemma ProductOfSquares(x: real, y: real, sx: real, sy: real)
    requires x * x == sx && y * y == sy
    ensures (x * y) * (x * y) == sx * sy
  {
    assert (x * y) * (x * y) == (x * x) * (y * y);
  }

  /**
   * `Cosine` restated on plain numbers (a dot product over two norms), so
   * that the bound can be proved on reals, apart from the vectors and the
   * root that make the arithmetic expensive for the solver.
   */
  function Ratio(d: real, n1: real, n2: real): (ratio: real)
  {
    if n1 * n2 > 0.0 then d / (n1 * n2) else 0.0
  }

  /**
   * The bound on plain numbers: with norms `n1`, `n2` whose squares are the
   * self products `s1`, `s2`, and a dot product `d` with `d^2 <= s1 * s2`,
   * the guarded ratio lies in [-1, 1].
   */
  lemma RatioBounded(d: real, n1: real, n2: real, s1: real, s2: real)
    requires n1 * n1 == s1 && n2 * n2 == s2 && d * d <= s1 * s2
    ensures -1.0 <= Ratio(d, n1, n2) <= 1.0
  {
    if n1 * n2 > 0.0 {
      ProductOfSquares(n1, n2, s1, s2);
      RatioWithin(d, n1 * n2);
    }
  }

  lemma NormRatioBounded(v1: seq<real>, v2: seq<real>, n1: real, n2: real)
    requires n1 * n1 == Dot(v1, v1) && n2 * n2 == Dot(v2, v2)
    ensures -1.0 <= Ratio(Dot(v1, v2), n1, n2) <= 1.0
  {
    DotSquareBound(v1, v2);
    RatioBounded(Dot(v1, v2), n1, n2, Dot(v1, v1), Dot(v2, v2));
  }

  /** With an exact square root, a cosine score lies in [-1, 1]. */
  lemma CosineBounded(v1: seq<real>, v2: seq<real>, sqrt: Root)
    requires ExactRoot(sqrt)
    ensures -1.0 <= Cosine(v1, v2, sqrt) <= 1.0
  {
    NormSquared(v1, sqrt);
    NormSquared(v2, sqrt);
    NormRatioBounded(v1, v2, Norm(v1, sqrt), Norm(v2, sqrt));
    assert Cosine(v1, v2, sqrt) == Ratio(Dot(v1, v2), Norm(v1, sqrt), Norm(v2, sqrt));
  }

  /** A positive number over itself is 1. */
  lemma DivideSelf(p: real)
    requires p > 0.0
    ensures p / p == 1.0
  {
  }

  /** With an exact square root, a non-zero vector has cosine score 1 with itself. */
  lemma CosineSelfOne(v: seq<real>, sqrt: Root)
    requires ExactRoot(sqrt) && !IsZero(v)
    ensures Cosine(v, v, sqrt) == 1.0
  {
    NormSquared(v, sqrt);
    SelfDotGrows(v, |v|, |v|);
    DivideSelf(Dot(v, v));
  }

  lemma {:induction false} SquaredDistanceProperties(v1: seq<real>, v2: seq<real>, n: nat)
    requires n <= |v1| && n <= |v2|
    ensures SquaredDistanceUpTo(v1, v2, n) == SquaredDistanceUpTo(v2, v1, n)
    ensures SquaredDistanceUpTo(v1, v2, n) > 0.0 <==> exists i :: 0 <= i < n && v1[i] != v2[i]
  {
    if n > 0 {
      SquaredDistanceProperties(v1, v2, n - 1);
      var d := v1[n - 1] - v2[n - 1];
      AddSquare(SquaredDistanceUpTo(v1, v2, n - 1), SquaredDistanceUpTo(v1, v2, n), d);
      assert (v2[n - 1] - v1[n - 1]) * (v2[n - 1] - v1[n - 1]) == d * d;
    }
  }

  /** The abstract square root is non-negative on non-negative input, and positive exactly on positive input. */
  lemma RootSign(sqrt: Root, x: real)
    requires x >= 0.0
    ensures sqrt(x) >= 0.0
    ensures sqrt(x) > 0.0 <==> x > 0.0
  {
  }

  lemma PrefixesDiffer(v1: seq<real>, v2: seq<real>, n: nat)
    requires n <= |v1| && n <= |v2|
    ensures v1[..n] != v2[..n] <==> exists i :: 0 <= i < n && v1[i] != v2[i]
  {
    if v1[..n] != v2[..n] {
      var i :| 0 <= i < n && v1[..n][i] != v2[..n][i];
      assert v1[i] != v2[i];
    }
  }

  /**
   * `euclidean` is a non-negative, symmetric score that is 0 exactly when
   * the zipped prefixes are equal.
   */
  lemma EuclideanProperties(v1: seq<real>, v2: seq<real>, sqrt: Root)
    ensures Euclidean(v1, v2, sqrt) >= 0.0
    ensures Euclidean(v1, v2, sqrt) == Euclidean(v2, v1, sqrt)
    ensures Euclidean(v1, v2, sqrt) == 0.0 <==> v1[..Min(|v1|, |v2|)] == v2[..Min(|v1|, |v2|)]
  {
    var n := Min(|v1|, |v2|);
    SquaredDistanceProperties(v1, v2, n);
    RootSign(sqrt, SquaredDistanceUpTo(v1, v2, n));
    PrefixesDiffer(v1, v2, n);
  }
}
