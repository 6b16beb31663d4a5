/**
 * The Jaccard distance of `dist.rs` for unsigned integer vectors: one fold
 * over the zipped pairs accumulates (sum of maxima, sum of minima) in
 * integers, then `1 - min / max`, or 0 when the sum of maxima is 0.
 */
module Jaccard {
  import opened Primitives

  /**
   * The fold `(max, min)` after the first `n` zipped pairs: the larger
   * element goes to the first accumulator, the other to the second.
   */
  function JaccardSums(va: seq<nat>, vb: seq<nat>, n: nat): (sums: (nat, nat))
    requires n <= |va| && n <= |vb|
    ensures sums.1 <= sums.0
  {
    if n == 0 then (0, 0)
    else
      var acc := JaccardSums(va, vb, n - 1);
      if va[n - 1] > vb[n - 1] then (acc.0 + va[n - 1], acc.1 + vb[n - 1])
      else (acc.0 + vb[n - 1], acc.1 + va[n - 1])
  }

  /** Sum of the first `n` elements. */
  function Total(v: seq<nat>, n: nat): (total: nat)
    requires n <= |v|
  {
    if n == 0 then 0 else Total(v, n - 1) + v[n - 1]
  }

  /** Sum of `|va[i] - vb[i]|` over the first `n` pairs. */
  function AbsDiffTotal(va: seq<nat>, vb: seq<nat>, n: nat): (total: nat)
    requires n <= |va| && n <= |vb|
  {
    if n == 0 then 0 else AbsDiffTotal(va, vb, n - 1) + Abs(va[n - 1] as int - vb[n - 1] as int)
  }

  /**
   * The two accumulators are determined by the inputs alone: together they
   * add up to both vectors' totals, and they differ by the L1 distance.
   */
  lemma {:induction false} JaccardSumsCharacterised(va: seq<nat>, vb: seq<nat>, n: nat)
    requires n <= |va| && n <= |vb|
    ensures JaccardSums(va, vb, n).0 + JaccardSums(va, vb, n).1 == Total(va, n) + Total(vb, n)
    ensures JaccardSums(va, vb, n).0 - JaccardSums(va, vb, n).1 == AbsDiffTotal(va, vb, n)
  {
    if n > 0 {
      JaccardSumsCharacterised(va, vb, n - 1);
    }
  }

  /** The sum of maxima is 0 exactly when every zipped pair is (0, 0). */
  lemma {:induction false} MaxSumZero(va: seq<nat>, vb: seq<nat>, n: nat)
    requires n <= |va| && n <= |vb|
    ensures JaccardSums(va, vb, n).0 == 0 <==> forall i :: 0 <= i < n ==> va[i] == 0 && vb[i] == 0
  {
    if n > 0 {
      MaxSumZero(va, vb, n - 1);
    }
  }

  lemma {:induction false} JaccardSumsSymmetric(va: seq<nat>, vb: seq<nat>, n: nat)
    requires n <= |va| && n <= |vb|
    ensures JaccardSums(va, vb, n) == JaccardSums(vb, va, n)
  {
    if n > 0 {
      JaccardSumsSymmetric(va, vb, n - 1);
    }
  }

  lemma {:induction false} JaccardSumsSelf(v: seq<nat>, n: nat)
    requires n <= |v|
    ensures JaccardSums(v, v, n).0 == JaccardSums(v, v, n).1
  {
    if n > 0 {
      JaccardSumsSelf(v, n - 1);
    }
  }

  /** `DistJaccard::eval`. */
  function JaccardDistance(va: seq<nat>, vb: seq<nat>): (d: real)
    ensures 0.0 <= d <= 1.0
  {
    var sums := JaccardSums(va, vb, Min(|va|, |vb|));
    var max, min := sums.0, sums.1;
    if max > 0 then
      RatioAtMostOne(min as real, max as real);
      1.0 - (min as real) / (max as real)
    else 0.0
  }

  lemma RatioAtMostOne(a: real, b: real)
    requires 0.0 <= a <= b && b > 0.0
    ensures 0.0 <= a / b <= 1.0
  {
    assert a / b * b == a;
  }

  /**
   * The zero-denominator guard fires exactly when every zipped pair is
   * (0, 0); the distance is symmetric.
   */
  lemma JaccardProperties(va: seq<nat>, vb: seq<nat>)
    ensures (forall i :: 0 <= i < Min(|va|, |vb|) ==> va[i] == 0 && vb[i] == 0) ==> JaccardDistance(va, vb) == 0.0
    ensures JaccardDistance(va, vb) == JaccardDistance(vb, va)
  {
    var n := Min(|va|, |vb|);
    MaxSumZero(va, vb, n);
    JaccardSumsSymmetric(va, vb, n);
  }

  /** A vector is at Jaccard distance 0 from itself. */
  lemma JaccardSelfZero(v: seq<nat>)
    ensures JaccardDistance(v, v) == 0.0
  {
    JaccardSumsSelf(v, |v|);
    var sums := JaccardSums(v, v, |v|);
    if sums.0 > 0 {
      var m := sums.0 as real;
      assert (sums.1 as real) / m == m / m == 1.0;
    }
  }

  /** The unit test: sums of maxima 16 and of minima 11, so `1 - 11/16`. */
  lemma JaccardExample()
    ensures JaccardSums([1, 2, 1, 4, 3], [2, 2, 1, 5, 6], 5) == (16, 11)
    ensures JaccardDistance([1, 2, 1, 4, 3], [2, 2, 1, 5, 6]) == 1.0 - 11.0 / 16.0
  {
  }
}
