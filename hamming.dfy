/**
 * The Hamming distance of `dist.rs`: the scalar `zip`/`filter`/`count` form
 * used by the macro instances and by the fallback of `Distance<i32>`, and the
 * lane form `distance_hamming_i32`, where every lane adds -1 (an all-ones
 * compare mask read as an `i32`) for each mismatch it sees.
 */
module Hamming {
  import opened Primitives
  import Chunking

  /** Number of differing positions among the first `n` zipped pairs. */
  function MismatchesUpTo(va: seq<int>, vb: seq<int>, n: nat): (count: nat)
    requires n <= |va| && n <= |vb|
  {
    if n == 0 then 0 else MismatchesUpTo(va, vb, n - 1) + (if va[n - 1] != vb[n - 1] then 1 else 0)
  }

  /** `va.iter().zip(vb.iter()).filter(|t| t.0 != t.1).count()`. */
  function Hamming(va: seq<int>, vb: seq<int>): (dist: nat)
  {
    MismatchesUpTo(va, vb, Min(|va|, |vb|))
  }

  /** The positions, below the shorter length, where the two vectors differ. */
  function DifferingPositions(va: seq<int>, vb: seq<int>, n: nat): (positions: set<nat>)
    requires n <= |va| && n <= |vb|
  {
    set i: nat | i < n && va[i] != vb[i]
  }

  lemma {:induction false} MismatchesCountPositions(va: seq<int>, vb: seq<int>, n: nat)
    requires n <= |va| && n <= |vb|
    ensures MismatchesUpTo(va, vb, n) == |DifferingPositions(va, vb, n)|
  {
    if n > 0 {
      MismatchesCountPositions(va, vb, n - 1);
      var before := DifferingPositions(va, vb, n - 1);
      if va[n - 1] != vb[n - 1] {
        assert DifferingPositions(va, vb, n) == before + {n - 1};
      } else {
        assert DifferingPositions(va, vb, n) == before;
      }
    }
  }

  /** Hamming counts exactly the positions where the zipped elements differ. */
  lemma HammingCountsDifferingPositions(va: seq<int>, vb: seq<int>)
    ensures Hamming(va, vb) == |DifferingPositions(va, vb, Min(|va|, |vb|))|
    ensures Hamming(va, vb) <= Min(|va|, |vb|)
  {
    var n := Min(|va|, |vb|);
    MismatchesCountPositions(va, vb, n);
    MismatchesBounded(va, vb, n);
  }

  lemma {:induction false} MismatchesBounded(va: seq<int>, vb: seq<int>, n: nat)
    requires n <= |va| && n <= |vb|
    ensures MismatchesUpTo(va, vb, n) <= n
  {
    if n > 0 {
      MismatchesBounded(va, vb, n - 1);
    }
  }

  lemma {:induction false} MismatchesSymmetric(va: seq<int>, vb: seq<int>, n: nat)
    requires n <= |va| && n <= |vb|
    ensures MismatchesUpTo(va, vb, n) == MismatchesUpTo(vb, va, n)
    ensures va[..n] == vb[..n] <==> MismatchesUpTo(va, vb, n) == 0
  {
    if n > 0 {
      MismatchesSymmetric(va, vb, n - 1);
      assert va[..n] == va[..n - 1] + [va[n - 1]];
      assert vb[..n] == vb[..n - 1] + [vb[n - 1]];
    }
  }

  /** Hamming is symmetric, and zero exactly when the zipped prefixes agree. */
  lemma HammingSymmetric(va: seq<int>, vb: seq<int>)
    ensures Hamming(va, vb) == Hamming(vb, va)
    ensures Hamming(va, vb) == 0 <==> va[..Min(|va|, |vb|)] == vb[..Min(|va|, |vb|)]
  {
    MismatchesSymmetric(va, vb, Min(|va|, |vb|));
  }

  /** Sum of the lanes, as `simd_res.into_iter().sum()` computes it. */
  function Sum(s: seq<int>): (total: int)
  {
    if s == [] then 0 else Sum(s[..|s| - 1]) + s[|s| - 1]
  }

  lemma {:induction false} SumUpdate(s: seq<int>, k: nat, v: int)
    requires k < |s|
    ensures Sum(s[k := v]) == Sum(s) - s[k] + v
  {
    var last := |s| - 1;
    if k == last {
      assert s[k := v][..last] == s[..last];
    } else {
      assert s[k := v][..last] == s[..last][k := v];
      SumUpdate(s[..last], k, v);
    }
  }

  lemma {:induction false} SumZeros(s: seq<int>)
    requires forall k :: 0 <= k < |s| ==> s[k] == 0
    ensures Sum(s) == 0
  {
    if s != [] {
      SumZeros(s[..|s| - 1]);
    }
  }

  /**
   * One iteration of the main loop: lane `k` compares `va[i + k]` with
   * `vb[i + k]` and adds the compare mask, -1 on a mismatch, to its counter.
   */
  method CompareGroup(va: seq<int>, vb: seq<int>, i: nat, distSimd: array<int>)
    requires i + distSimd.Length <= |va| <= |vb|
    modifies distSimd
    ensures forall k :: 0 <= k < distSimd.Length ==> distSimd[k] == old(distSimd[k]) - (if va[i + k] != vb[i + k] then 1 else 0)
    ensures Sum(distSimd[..]) == Sum(old(distSimd[..])) - (MismatchesUpTo(va, vb, i + distSimd.Length) - MismatchesUpTo(va, vb, i))
  {
    var width := distSimd.Length;
    for lane := 0 to width
      invariant forall k :: 0 <= k < lane ==> distSimd[k] == old(distSimd[k]) - (if va[i + k] != vb[i + k] then 1 else 0)
      invariant forall k :: lane <= k < width ==> distSimd[k] == old(distSimd[k])
      invariant Sum(distSimd[..]) == Sum(old(distSimd[..])) - (MismatchesUpTo(va, vb, i + lane) - MismatchesUpTo(va, vb, i))
    {
      // cmpneq_epi32 gives an all-ones mask (-1) where the lanes differ; add_epi32 adds it
      var delta := if va[i + lane] != vb[i + lane] then -1 else 0;
      SumUpdate(distSimd[..], lane, distSimd[lane] + delta);
      distSimd[lane] := distSimd[lane] + delta;
    }
  }

  /**
   * `distance_hamming_i32` with `width` lanes: a lane register that each
   * lane decrements on a mismatch, the negated sum of the lanes, then the
   * scalar residue. The source reads `vb` at every index of `va`.
   */
  method HammingLanes(va: seq<int>, vb: seq<int>, width: nat) returns (dist: int)
    requires width > 0
    requires |va| <= |vb|
    ensures dist == Hamming(va, vb)
  {
    var distSimd := new int[width](_ => 0);
    SumZeros(distSimd[..]);
    var nbSimd := |va| / width;
    var simdLength := Chunking.SimdLength(|va|, width);
    var i := 0;
    ghost var c := 0;
    Chunking.SimdLengthIsOffset(|va|, width);
    while i < simdLength
      invariant c <= nbSimd && i == Chunking.Offset(c, width) && i <= simdLength
      invariant Sum(distSimd[..]) + MismatchesUpTo(va, vb, i) == 0
    {
      Chunking.ChunkFits(c, nbSimd, width);
      CompareGroup(va, vb, i, distSimd);
      i := i + width;
      c := c + 1;
    }
    Chunking.ChunksDone(c, nbSimd, width);
    dist := 0;
    for lane := 0 to width
      invariant dist == Sum(distSimd[..lane])
    {
      assert distSimd[..lane + 1][..lane] == distSimd[..lane];
      dist := dist + distSimd[lane];
    }
    assert distSimd[..width] == distSimd[..];
    dist := -dist;
    for j := simdLength to |va|
      invariant dist == MismatchesUpTo(va, vb, j)
    {
      dist := dist + if va[j] != vb[j] then 1 else 0;
    }
  }

  /** Lane count of an AVX2 register of 32-bit integers. */
  const Avx2I32Lanes: nat := 8

  /**
   * `Distance<i32>::eval` for `DistHamming`: the lane kernel when the CPU
   * has AVX2, the scalar count otherwise. Both give the same count.
   */
  method EvalI32(va: seq<int>, vb: seq<int>, hasAvx2: bool) returns (dist: int)
    requires hasAvx2 ==> |va| <= |vb|
    ensures dist == Hamming(va, vb)
    ensures 0 <= dist <= Min(|va|, |vb|)
  {
    HammingCountsDifferingPositions(va, vb);
    if hasAvx2 {
      dist := HammingLanes(va, vb, Avx2I32Lanes);
    } else {
      dist := Hamming(va, vb);
    }
  }
}
