/**
 * `implementCosDistance` of `dist.rs` for integer element types: one fold
 * accumulates (sum of products, sum of squares of `va`, sum of squares of
 * `vb`); the distance is `1 - dot / sqrt(|va|^2 * |vb|^2)` when both sums of
 * squares are positive, and 0 otherwise.
 */
module CosineDistance {
  import opened Primitives
  import Similarity

  /** The accumulator triple after the first `n` zipped pairs. */
  function CosineSums(va: seq<int>, vb: seq<int>, n: nat): (sums: (int, int, int))
    requires n <= |va| && n <= |vb|
    ensures sums.1 >= 0 && sums.2 >= 0
  {
    if n == 0 then (0, 0, 0)
    else
      var acc := CosineSums(va, vb, n - 1);
      (acc.0 + va[n - 1] * vb[n - 1], acc.1 + va[n - 1] * va[n - 1], acc.2 + vb[n - 1] * vb[n - 1])
  }

  /** `DistCosine::eval` on integer vectors. */
  function CosineDistance(va: seq<int>, vb: seq<int>, sqrt: Root): (dist: real)
  {
    var sums := CosineSums(va, vb, Min(|va|, |vb|));
    if sums.1 > 0 && sums.2 > 0 then
      assert sums.1 * sums.2 > 0;
      1.0 - (sums.0 as real) / sqrt((sums.1 * sums.2) as real)
    else 0.0
  }

  /** A sum of squares vanishes exactly when every summed element is 0. */
  lemma {:induction false} SquaresVanish(va: seq<int>, vb: seq<int>, n: nat)
    requires n <= |va| && n <= |vb|
    ensures CosineSums(va, vb, n).1 == 0 <==> forall i :: 0 <= i < n ==> va[i] == 0
    ensures CosineSums(va, vb, n).2 == 0 <==> forall i :: 0 <= i < n ==> vb[i] == 0
  {
    if n > 0 {
      SquaresVanish(va, vb, n - 1);
      assert va[n - 1] * va[n - 1] >= 0 && (va[n - 1] * va[n - 1] == 0 <==> va[n - 1] == 0);
      assert vb[n - 1] * vb[n - 1] >= 0 && (vb[n - 1] * vb[n - 1] == 0 <==> vb[n - 1] == 0);
    }
  }

  /**
   * The zero-norm branch: when either zipped vector is all zeros, its sum
   * of squares is 0, the guard fails and the distance is 0.
   */
  lemma ZeroNormGivesZero(va: seq<int>, vb: seq<int>, sqrt: Root)
    requires (forall i :: 0 <= i < Min(|va|, |vb|) ==> va[i] == 0) || (forall i :: 0 <= i < Min(|va|, |vb|) ==> vb[i] == 0)
    ensures CosineDistance(va, vb, sqrt) == 0.0
  {
    SquaresVanish(va, vb, Min(|va|, |vb|));
  }

  lemma {:induction false} CosineSumsSwap(va: seq<int>, vb: seq<int>, n: nat)
    requires n <= |va| && n <= |vb|
    ensures CosineSums(vb, va, n) == (CosineSums(va, vb, n).0, CosineSums(va, vb, n).2, CosineSums(va, vb, n).1)
  {
    if n > 0 {
      CosineSumsSwap(va, vb, n - 1);
    }
  }

  /** The cosine distance does not depend on the argument order. */
  lemma CosineDistanceSymmetric(va: seq<int>, vb: seq<int>, sqrt: Root)
    ensures CosineDistance(va, vb, sqrt) == CosineDistance(vb, va, sqrt)
  {
    var n := Min(|va|, |vb|);
    CosineSumsSwap(va, vb, n);
    var s := CosineSums(va, vb, n);
    assert s.1 * s.2 == s.2 * s.1;
  }

  /** On a vector zipped with itself the three sums coincide. */
  lemma {:induction false} CosineSumsSelf(v: seq<int>, n: nat)
    requires n <= |v|
    ensures CosineSums(v, v, n).0 == CosineSums(v, v, n).1 == CosineSums(v, v, n).2
  {
    if n > 0 {
      CosineSumsSelf(v, n - 1);
    }
  }

  /** An exact root undoes squaring on non-negative integers. */
  lemma RootOfIntSquare(sqrt: Root, s: int)
    requires Similarity.ExactRoot(sqrt) && s >= 0
    ensures sqrt((s * s) as real) == s as real
  {
    Similarity.RootOfSquare(sqrt, s as real);
    assert (s * s) as real == (s as real) * (s as real);
  }

  /** Equal positive sums, and a root that recovers them from their square, give distance 0. */
  lemma EqualSumsGiveZero(v: seq<int>, sqrt: Root)
    requires CosineSums(v, v, |v|).0 == CosineSums(v, v, |v|).1 == CosineSums(v, v, |v|).2 > 0
    requires sqrt((CosineSums(v, v, |v|).1 * CosineSums(v, v, |v|).1) as real) == CosineSums(v, v, |v|).1 as real
    ensures CosineDistance(v, v, sqrt) == 0.0
  {
    assert Min(|v|, |v|) == |v|;
  }

  /** With an exact square root, a vector with a non-zero element is at distance 0 from itself. */
  lemma CosineSelfZero(v: seq<int>, sqrt: Root)
    requires Similarity.ExactRoot(sqrt)
    requires exists i :: 0 <= i < |v| && v[i] != 0
    ensures CosineDistance(v, v, sqrt) == 0.0
  {
    CosineSumsSelf(v, |v|);
    SquaresVanish(v, v, |v|);
    RootOfIntSquare(sqrt, CosineSums(v, v, |v|).1);
    EqualSumsGiveZero(v, sqrt);
  }

  /** The integer vector cast element by element to reals. */
  function AsReals(v: seq<int>): (r: seq<real>)
    ensures |r| == |v| && forall i :: 0 <= i < |v| ==> r[i] == v[i] as real
  {
    seq(|v|, i requires 0 <= i < |v| => v[i] as real)
  }

  lemma CastProduct(x: int, y: int)
    ensures (x * y) as real == (x as real) * (y as real)
  {
  }

  /** The three integer sums, cast to reals, are the dot products of the cast vectors. */
  lemma {:induction false} SumsAreDots(va: seq<int>, vb: seq<int>, n: nat)
    requires n <= |va| && n <= |vb|
    ensures CosineSums(va, vb, n).0 as real == Similarity.DotUpTo(AsReals(va), AsReals(vb), n)
    ensures CosineSums(va, vb, n).1 as real == Similarity.DotUpTo(AsReals(va), AsReals(va), n)
    ensures CosineSums(va, vb, n).2 as real == Similarity.DotUpTo(AsReals(vb), AsReals(vb), n)
  {
    if n > 0 {
      SumsAreDots(va, vb, n - 1);
      CastProduct(va[n - 1], vb[n - 1]);
      CastProduct(va[n - 1], va[n - 1]);
      CastProduct(vb[n - 1], vb[n - 1]);
    }
  }

  /** Cauchy-Schwarz on the integer sums: the squared dot product is at most the product of the sums of squares. */
  lemma SumsCauchySchwarz(va: seq<int>, vb: seq<int>, n: nat)
    requires n <= |va| && n <= |vb|
    ensures (CosineSums(va, vb, n).0 as real) * (CosineSums(va, vb, n).0 as real)
         <= (CosineSums(va, vb, n).1 * CosineSums(va, vb, n).2) as real
  {
    SumsAreDots(va, vb, n);
    Similarity.CauchySchwarz(AsReals(va), AsReals(vb), n);
    CastProduct(CosineSums(va, vb, n).1, CosineSums(va, vb, n).2);
  }

  /** On plain numbers: one minus a ratio `d / r` with `d^2 <= r^2` and `r > 0` lies in [0, 2]. */
  lemma DistanceWithin(d: real, p: real, r: real)
    requires r > 0.0 && r * r == p && d * d <= p
    ensures 0.0 <= 1.0 - d / r <= 2.0
  {
    Similarity.RatioWithin(d, r);
  }

  /** With an exact square root, the cosine distance lies in [0, 2]. */
  lemma CosineDistanceBounded(va: seq<int>, vb: seq<int>, sqrt: Root)
    requires Similarity.ExactRoot(sqrt)
    ensures 0.0 <= CosineDistance(va, vb, sqrt) <= 2.0
  {
    var n := Min(|va|, |vb|);
    var s := CosineSums(va, vb, n);
    if s.1 > 0 && s.2 > 0 {
      SumsCauchySchwarz(va, vb, n);
      var p := (s.1 * s.2) as real;
      assert p > 0.0;
      Similarity.RootSquared(sqrt, p);
      DistanceWithin(s.0 as real, p, sqrt(p));
    }
  }

  /** The unit test: `[1, -1, 1]` and `[2, 1, -1]` are orthogonal, at distance 1. */
  lemma CosineExample(sqrt: Root)
    ensures CosineSums([1, -1, 1], [2, 1, -1], 3) == (0, 3, 6)
    ensures CosineDistance([1, -1, 1], [2, 1, -1], sqrt) == 1.0
  {
  }
}
