/**
 * `DistLevenshtein::eval` of `dist.rs`: the edit distance of two `u16`
 * sequences, computed with a single row `cur` of length `len_b + 1` that is
 * overwritten in place while `pre`/`tmp` carry the diagonal entry.
 */
module Levenshtein {
  import opened Primitives

  /**
   * The edit distance (unit-cost deletion, insertion and substitution) of
   * the prefixes `a[..i]` and `b[..j]`, by the classic recurrence on their
   * last symbols.
   */
  function PrefixDistance(a: seq<u16>, b: seq<u16>, i: nat, j: nat): (dist: nat)
    requires i <= |a| && j <= |b|
    decreases i + j
  {
    if i == 0 then j
    else if j == 0 then i
    else
      Min(PrefixDistance(a, b, i - 1, j) + 1,
          Min(PrefixDistance(a, b, i, j - 1) + 1,
              PrefixDistance(a, b, i - 1, j - 1) + (if a[i - 1] == b[j - 1] then 0 else 1)))
  }

  /** The edit distance of the whole sequences. */
  function EditDistance(a: seq<u16>, b: seq<u16>): (dist: nat)
  {
    PrefixDistance(a, b, |a|, |b|)
  }

  /** Deletion and insertion swap roles when the arguments swap. */
  lemma {:induction false} PrefixDistanceSymmetric(a: seq<u16>, b: seq<u16>, i: nat, j: nat)
    requires i <= |a| && j <= |b|
    ensures PrefixDistance(a, b, i, j) == PrefixDistance(b, a, j, i)
    decreases i + j
  {
    if i > 0 && j > 0 {
      PrefixDistanceSymmetric(a, b, i - 1, j);
      PrefixDistanceSymmetric(a, b, i, j - 1);
      PrefixDistanceSymmetric(a, b, i - 1, j - 1);
      var deletion := PrefixDistance(a, b, i - 1, j) + 1;
      var insertion := PrefixDistance(a, b, i, j - 1) + 1;
      var substitution := PrefixDistance(a, b, i - 1, j - 1) + (if a[i - 1] == b[j - 1] then 0 else 1);
      MinSwap(deletion, insertion, substitution);
    }
  }

  lemma MinSwap(x: int, y: int, z: int)
    ensures Min(x, Min(y, z)) == Min(y, Min(x, z))
  {
  }

  /** The edit distance does not depend on the argument order. */
  lemma EditDistanceSymmetric(a: seq<u16>, b: seq<u16>)
    ensures EditDistance(a, b) == EditDistance(b, a)
  {
    PrefixDistanceSymmetric(a, b, |a|, |b|);
  }

  lemma {:induction false} PrefixDistanceSelf(s: seq<u16>, i: nat)
    requires i <= |s|
    ensures PrefixDistance(s, s, i, i) == 0
  {
    if i > 0 {
      PrefixDistanceSelf(s, i - 1);
    }
  }

  lemma {:induction false} PrefixDistanceZero(a: seq<u16>, b: seq<u16>, i: nat, j: nat)
    requires i <= |a| && j <= |b|
    requires PrefixDistance(a, b, i, j) == 0
    ensures i == j && a[..i] == b[..j]
    decreases i + j
  {
    if i > 0 && j > 0 {
      PrefixDistanceZero(a, b, i - 1, j - 1);
      assert a[..i] == a[..i - 1] + [a[i - 1]] && b[..j] == b[..j - 1] + [b[j - 1]];
    }
  }

  /** Distance 0 holds exactly between equal sequences. */
  lemma EditDistanceZeroIffEqual(a: seq<u16>, b: seq<u16>)
    ensures EditDistance(a, b) == 0 <==> a == b
  {
    PrefixDistanceSelf(a, |a|);
    if EditDistance(a, b) == 0 {
      PrefixDistanceZero(a, b, |a|, |b|);
      assert a == a[..|a|] && b == b[..|b|];
    }
  }

  /**
   * `DistLevenshtein::eval`: swap so that the longer sequence comes first,
   * answer the empty cases directly, otherwise fill the rolling row.
   */
  method Levenshtein(a: seq<u16>, b: seq<u16>) returns (d: nat)
    ensures d == EditDistance(a, b)
    ensures |a| == 0 ==> d == |b|
    ensures |b| == 0 ==> d == |a|
    decreases if |a| < |b| then 1 else 0
  {
    if |a| < |b| {
      d := Levenshtein(b, a);
      EditDistanceSymmetric(b, a);
      return;
    }
    if |a| == 0 {
      return |b|;
    } else if |b| == 0 {
      return |a|;
    }
    var lenB := |b| + 1;
    var cur := new nat[lenB](_ => 0);
    for i := 1 to lenB
      invariant cur[0] == 0
      invariant forall k :: 1 <= k < i ==> cur[k] == k
    {
      cur[i] := i;
    }
    for i := 0 to |a|
      invariant forall k {:trigger cur[k]} :: 0 <= k < lenB ==> cur[k] == PrefixDistance(a, b, i, k)
    {
      NextRow(a, b, i, cur);
    }
    d := cur[lenB - 1];
  }

  /**
   * The recurrence for the cell below and to the right of `(i, j)`, given
   * the cells above it (`up`), to its left (`left`) and on its diagonal.
   */
  lemma Step(a: seq<u16>, b: seq<u16>, i: nat, j: nat, up: nat, left: nat, diag: nat)
    requires i < |a| && j < |b|
    requires up == PrefixDistance(a, b, i, j + 1)
    requires left == PrefixDistance(a, b, i + 1, j)
    requires diag == PrefixDistance(a, b, i, j)
    ensures PrefixDistance(a, b, i + 1, j + 1) == Min(up + 1, Min(left + 1, diag + if a[i] == b[j] then 0 else 1))
  {
  }

  /**
   * One pass of the outer loop: turns the row of `a[..i]` into the row of
   * `a[..i + 1]` in place, `pre` holding the entry of the old row to the left.
   */
  method NextRow(a: seq<u16>, b: seq<u16>, i: nat, cur: array<nat>)
    requires i < |a| && cur.Length == |b| + 1
    requires forall k {:trigger cur[k]} :: 0 <= k < cur.Length ==> cur[k] == PrefixDistance(a, b, i, k)
    modifies cur
    ensures forall k {:trigger cur[k]} :: 0 <= k < cur.Length ==> cur[k] == PrefixDistance(a, b, i + 1, k)
  {
    var pre := cur[0];
    cur[0] := i + 1;
    for j := 0 to |b|
      invariant forall k {:trigger cur[k]} :: 0 <= k <= j ==> cur[k] == PrefixDistance(a, b, i + 1, k)
      invariant forall k {:trigger cur[k]} :: j < k < cur.Length ==> cur[k] == PrefixDistance(a, b, i, k)
      invariant pre == PrefixDistance(a, b, i, j)
    {
      pre := NextCell(a, b, i, j, cur, pre);
    }
  }

  /**
   * One pass of the inner loop: `cur[j + 1]` moves from row `i` to row
   * `i + 1`, and its old value becomes the diagonal of the next cell.
   */
  method NextCell(a: seq<u16>, b: seq<u16>, i: nat, j: nat, cur: array<nat>, pre: nat) returns (tmp: nat)
    requires i < |a| && j < |b| && cur.Length == |b| + 1
    requires forall k {:trigger cur[k]} :: 0 <= k <= j ==> cur[k] == PrefixDistance(a, b, i + 1, k)
    requires forall k {:trigger cur[k]} :: j < k < cur.Length ==> cur[k] == PrefixDistance(a, b, i, k)
    requires pre == PrefixDistance(a, b, i, j)
    modifies cur
    ensures forall k {:trigger cur[k]} :: 0 <= k <= j + 1 ==> cur[k] == PrefixDistance(a, b, i + 1, k)
    ensures forall k {:trigger cur[k]} :: j + 1 < k < cur.Length ==> cur[k] == PrefixDistance(a, b, i, k)
    ensures tmp == PrefixDistance(a, b, i, j + 1)
  {
    tmp := cur[j + 1];
    var left := cur[j];
    Step(a, b, i, j, tmp, left, pre);
    cur[j + 1] := Min(tmp + 1, Min(left + 1, pre + if a[i] == b[j] then 0 else 1));
  }

  /** The second assertion of `test_levenshtein`: equal sequences are at distance 0. */
  lemma LevenshteinEqualExample()
    ensures EditDistance([1, 2, 3, 4], [1, 2, 3, 4]) == 0
  {
    var a: seq<u16> := [1, 2, 3, 4];
    EditDistanceZeroIffEqual(a, a);
  }

  /** The first assertion of `test_levenshtein`: one substitution in the last position. */
  lemma LevenshteinSubstitutionExample()
    ensures EditDistance([1, 2, 3, 4], [1, 2, 3, 3]) == 1
  {
    var a: seq<u16>, b: seq<u16> := [1, 2, 3, 4], [1, 2, 3, 3];
    EditDistanceZeroIffEqual(a, b);
    PrefixDistanceSelf(b, 3);
    PrefixPrefixAgree(a, b, 3);
    assert PrefixDistance(a, b, 3, 3) == 0;
  }

  /** The third and fourth assertions of `test_levenshtein`: three substitutions, in both argument orders. */
  lemma LevenshteinSwappedExample()
    ensures EditDistance([1, 2, 3, 4], [1, 1, 1, 4]) == 2
  {
    var a: seq<u16>, c: seq<u16> := [1, 2, 3, 4], [1, 1, 1, 4];
    RowsOfExample();
    EditDistanceSymmetric(c, a);
  }

  /** Prefix distances only read the prefixes themselves. */
  lemma {:induction false} PrefixesOnly(a: seq<u16>, b: seq<u16>, a': seq<u16>, b': seq<u16>, i: nat, j: nat)
    requires i <= |a| && j <= |b| && i <= |a'| && j <= |b'|
    requires a[..i] == a'[..i] && b[..j] == b'[..j]
    ensures PrefixDistance(a, b, i, j) == PrefixDistance(a', b', i, j)
    decreases i + j
  {
    if i > 0 && j > 0 {
      assert a[..i - 1] == a[..i][..i - 1] && a'[..i - 1] == a'[..i][..i - 1];
      assert b[..j - 1] == b[..j][..j - 1] && b'[..j - 1] == b'[..j][..j - 1];
      assert a[i - 1] == a[..i][i - 1] && a'[i - 1] == a'[..i][i - 1];
      assert b[j - 1] == b[..j][j - 1] && b'[j - 1] == b'[..j][j - 1];
      PrefixesOnly(a, b, a', b', i - 1, j);
      PrefixesOnly(a, b, a', b', i, j - 1);
      PrefixesOnly(a, b, a', b', i - 1, j - 1);
    }
  }

  lemma PrefixPrefixAgree(a: seq<u16>, b: seq<u16>, n: nat)
    requires n <= |a| && n <= |b| && a[..n] == b[..n]
    ensures PrefixDistance(a, b, n, n) == PrefixDistance(b, b, n, n)
  {
    PrefixesOnly(a, b, b, b, n, n);
  }

  /** `[1, 1, 1, 4]` against `[1, 2, 3, 4]`, filled row by row. */
  lemma RowsOfExample()
    ensures EditDistance([1, 1, 1, 4], [1, 2, 3, 4]) == 2
  {
    var a: seq<u16>, b: seq<u16> := [1, 1, 1, 4], [1, 2, 3, 4];
    assert PrefixDistance(a, b, 1, 1) == 0;
    assert PrefixDistance(a, b, 1, 2) == 1;
    assert PrefixDistance(a, b, 1, 3) == 2;
    assert PrefixDistance(a, b, 1, 4) == 3;
    assert PrefixDistance(a, b, 2, 1) == 1;
    assert PrefixDistance(a, b, 2, 2) == 1;
    assert PrefixDistance(a, b, 2, 3) == 2;
    assert PrefixDistance(a, b, 2, 4) == 3;
    assert PrefixDistance(a, b, 3, 1) == 2;
    assert PrefixDistance(a, b, 3, 2) == 2;
    assert PrefixDistance(a, b, 3, 3) == 2;
    assert PrefixDistance(a, b, 3, 4) == 3;
    assert PrefixDistance(a, b, 4, 1) == 3;
    assert PrefixDistance(a, b, 4, 2) == 3;
    assert PrefixDistance(a, b, 4, 3) == 3;
    assert PrefixDistance(a, b, 4, 4) == 2;
  }
}
