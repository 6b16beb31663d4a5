/**
 * The lane/tail shape shared by the vectorised kernels of `dist.rs`
 * (`distance_l1_f32`, `distance_l2_f32`, `distance_hamming_i32`): the first
 * `simd_length = (len / W) * W` indices are handled `W` lanes at a time by a
 * `while` loop, the remaining ones by a scalar tail loop. The L1 kernel is
 * modelled over integers and proved equal to the scalar `zip` form.
 */
module Chunking {
  import opened Primitives

  /** Length of the prefix handled by whole lane groups. */
  function SimdLength(len: nat, width: nat): (s: nat)
    requires width > 0
    ensures s <= len && len - s < width
  {
    (len / width) * width
  }

  /**
   * Where lane group `c` starts: `c` groups of `width` indices. This is
   * `c * width` written by recursion, so that the chunk lemmas can step
   * through it without nonlinear arithmetic (`OffsetIsProduct` ties the two).
   */
  function Offset(c: nat, width: nat): (start: nat)
  {
    if c == 0 then 0 else Offset(c - 1, width) + width
  }

  lemma {:induction false} OffsetIsProduct(c: nat, width: nat)
    ensures Offset(c, width) == c * width
  {
    if c > 0 {
      OffsetIsProduct(c - 1, width);
    }
  }

  /** The main loop covers exactly the `len / width` whole groups. */
  lemma SimdLengthIsOffset(len: nat, width: nat)
    requires width > 0
    ensures SimdLength(len, width) == Offset(len / width, width)
  {
    OffsetIsProduct(len / width, width);
  }

  lemma {:induction false} OffsetMonotone(c: nat, d: nat, width: nat)
    requires c <= d
    ensures Offset(c, width) + (d - c) * width == Offset(d, width)
    decreases d
  {
    if c < d {
      OffsetMonotone(c, d - 1, width);
      assert (d - c) * width == (d - 1 - c) * width + width;
    }
  }

  /** The indices `lo, lo + 1, ..., hi - 1`. */
  function Range(lo: nat, hi: nat): (indices: seq<nat>)
    decreases hi
  {
    if hi <= lo then [] else Range(lo, hi - 1) + [hi - 1]
  }

  /** Indices touched by the first `chunks` iterations of the main loop, lane after lane. */
  function ChunkVisits(chunks: nat, width: nat): (visits: seq<nat>)
  {
    if chunks == 0 then [] else ChunkVisits(chunks - 1, width) + Range(Offset(chunks - 1, width), Offset(chunks, width))
  }

  /** Every index a chunked kernel reads, in order: the whole lane groups, then the tail. */
  function Visits(len: nat, width: nat): (visits: seq<nat>)
    requires width > 0
  {
    ChunkVisits(len / width, width) + Range(SimdLength(len, width), len)
  }

  lemma {:induction false} RangeSplit(lo: nat, mid: nat, hi: nat)
    requires lo <= mid <= hi
    ensures Range(lo, mid) + Range(mid, hi) == Range(lo, hi)
    decreases hi
  {
    if hi > mid {
      RangeSplit(lo, mid, hi - 1);
    }
  }

  lemma {:induction false} ChunkVisitsAreRange(chunks: nat, width: nat)
    ensures ChunkVisits(chunks, width) == Range(0, Offset(chunks, width))
  {
    if chunks > 0 {
      ChunkVisitsAreRange(chunks - 1, width);
      RangeSplit(0, Offset(chunks - 1, width), Offset(chunks, width));
    }
  }

  /** The `i`-th element of `Range(lo, hi)` is `lo + i`. */
  lemma {:induction false} RangeElements(lo: nat, hi: nat)
    requires lo <= hi
    ensures |Range(lo, hi)| == hi - lo
    ensures forall i :: 0 <= i < hi - lo ==> Range(lo, hi)[i] == lo + i
    decreases hi
  {
    if hi > lo {
      RangeElements(lo, hi - 1);
    }
  }

  /**
   * The main loop and the tail loop together read every index below `len`
   * exactly once, in increasing order, and nothing else: the `i`-th index
   * read is `i`.
   */
  lemma VisitsEachIndexOnce(len: nat, width: nat)
    requires width > 0
    ensures Visits(len, width) == Range(0, len)
    ensures |Visits(len, width)| == len
    ensures forall i :: 0 <= i < len ==> Visits(len, width)[i] == i
  {
    var s := SimdLength(len, width);
    ChunkVisitsAreRange(len / width, width);
    SimdLengthIsOffset(len, width);
    RangeSplit(0, s, len);
    RangeElements(0, len);
  }

  /** Sum of `|va[i] - vb[i]|` over the first `n` zipped pairs. */
  function L1UpTo(va: seq<int>, vb: seq<int>, n: nat): (d: int)
    requires n <= |va| && n <= |vb|
    ensures d >= 0
  {
    if n == 0 then 0 else L1UpTo(va, vb, n - 1) + Abs(va[n - 1] - vb[n - 1])
  }

  /** The scalar L1 distance: `zip` stops at the shorter slice. */
  function L1(va: seq<int>, vb: seq<int>): (dist: int)
  {
    L1UpTo(va, vb, Min(|va|, |vb|))
  }

  lemma {:induction false} L1UpToSymmetric(va: seq<int>, vb: seq<int>, n: nat)
    requires n <= |va| && n <= |vb|
    ensures L1UpTo(va, vb, n) == L1UpTo(vb, va, n)
  {
    if n > 0 {
      L1UpToSymmetric(va, vb, n - 1);
    }
  }

  lemma {:induction false} L1UpToSelf(v: seq<int>, n: nat)
    requires n <= |v|
    ensures L1UpTo(v, v, n) == 0
  {
    if n > 0 {
      L1UpToSelf(v, n - 1);
    }
  }

  /** L1 is symmetric and vanishes on equal vectors. */
  lemma L1Symmetric(va: seq<int>, vb: seq<int>)
    ensures L1(va, vb) == L1(vb, va)
    ensures va == vb ==> L1(va, vb) == 0
  {
    L1UpToSymmetric(va, vb, Min(|va|, |vb|));
    L1UpToSelf(va, |va|);
  }

  /** The unit test: `[1, 2, 3]` against `[2, 2, 3]` is at L1 distance 1. */
  lemma L1Example()
    ensures L1([1, 2, 3], [2, 2, 3]) == 1
  {
  }

  /** Lane group `c` of `chunks` ends no later than the last one. */
  lemma ChunkFits(c: nat, chunks: nat, width: nat)
    requires c < chunks
    ensures Offset(c + 1, width) <= Offset(chunks, width)
  {
    OffsetMonotone(c + 1, chunks, width);
  }

  /** The main loop stops after exactly `chunks` iterations. */
  lemma ChunksDone(c: nat, chunks: nat, width: nat)
    requires width > 0 && c <= chunks && Offset(c, width) >= Offset(chunks, width)
    ensures c == chunks
  {
    if c < chunks {
      ChunkFits(c, chunks, width);
    }
  }

  /**
   * One iteration of the main loop: the absolute differences of the `width`
   * lanes starting at `i`, added horizontally.
   */
  method LaneGroup(va: seq<int>, vb: seq<int>, i: nat, width: nat) returns (groupSum: int, ghost seen: seq<nat>)
    requires i + width <= |va| <= |vb|
    ensures groupSum == L1UpTo(va, vb, i + width) - L1UpTo(va, vb, i)
    ensures seen == Range(i, i + width)
  {
    groupSum, seen := 0, [];
    for lane := 0 to width
      invariant groupSum == L1UpTo(va, vb, i + lane) - L1UpTo(va, vb, i)
      invariant seen == Range(i, i + lane)
    {
      groupSum := groupSum + Abs(va[i + lane] - vb[i + lane]);
      seen := seen + [i + lane];
    }
  }

  /**
   * The main loop of `distance_l1_f32`: whole lane groups while
   * `i < simd_length`, stepping `i` by `width`.
   */
  method LaneGroups(va: seq<int>, vb: seq<int>, width: nat) returns (dist: int, ghost visited: seq<nat>)
    requires width > 0 && |va| <= |vb|
    ensures dist == L1UpTo(va, vb, SimdLength(|va|, width))
    ensures visited == ChunkVisits(|va| / width, width)
  {
    dist, visited := 0, [];
    var nbSimd := |va| / width;
    var simdLength := SimdLength(|va|, width);
    var i := 0;
    ghost var c := 0;
    SimdLengthIsOffset(|va|, width);
    while i < simdLength
      invariant c <= nbSimd && i == Offset(c, width) && i <= simdLength
      invariant dist == L1UpTo(va, vb, i)
      invariant visited == ChunkVisits(c, width)
    {
      ChunkFits(c, nbSimd, width);
      var groupSum, seen := LaneGroup(va, vb, i, width);
      dist := dist + groupSum;
      visited := visited + seen;
      i := i + width;
      c := c + 1;
    }
    ChunksDone(c, nbSimd, width);
  }

  /**
   * `distance_l1_f32` over integers: lane groups of `width` elements, then
   * the scalar tail. `visited` records which index each step reads.
   */
  method DistanceL1Chunked(va: seq<int>, vb: seq<int>, width: nat) returns (dist: int, ghost visited: seq<nat>)
    requires width > 0
    requires |va| <= |vb|
    ensures dist >= 0
    ensures dist == L1(va, vb)
    ensures visited == Visits(|va|, width)
  {
    var simdLength := SimdLength(|va|, width);
    dist, visited := LaneGroups(va, vb, width);
    ghost var mainVisits := visited;
    for j := simdLength to |va|
      invariant dist == L1UpTo(va, vb, j)
      invariant visited == mainVisits + Range(simdLength, j)
    {
      dist := dist + Abs(va[j] - vb[j]);
      visited := visited + [j];
    }
  }

  /** Lane count of an AVX2 register of 32-bit floats. */
  const Avx2F32Lanes: nat := 8

  /**
   * `Distance<f32>::eval` for `DistL1`, over integers: the chunked kernel
   * when the CPU has AVX2, the scalar `zip` sum otherwise. Both give the
   * same distance.
   */
  method EvalL1(va: seq<int>, vb: seq<int>, hasAvx2: bool) returns (dist: int)
    requires hasAvx2 ==> |va| <= |vb|
    ensures dist == L1(va, vb)
    ensures dist >= 0
  {
    if hasAvx2 {
      ghost var visited: seq<nat>;
      dist, visited := DistanceL1Chunked(va, vb, Avx2F32Lanes);
    } else {
      dist := L1(va, vb);
    }
  }
}
