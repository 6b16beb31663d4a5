/**
 * The tail of `query` in both brute-force back ends: the candidates are
 * sorted by score with `sort_by` (a stable sort; descending for cosine
 * similarity, ascending for Euclidean distance), then `drain(..n)` hands
 * back the first `n`, panicking when `n` exceeds the number of candidates.
 */
module Ranking {
  import opened Documents

  /** Best score first (cosine) or smallest score first (Euclidean). */
  datatype Direction = Descending | Ascending

  /** A document scored `x` sorts strictly before one scored `y`. */
  predicate Precedes(dir: Direction, x: real, y: real)
  {
    match dir
    case Descending => x > y
    case Ascending => x < y
  }

  /** No document is placed after one that should strictly follow it. */
  predicate Ordered(dir: Direction, s: seq<Doc>)
  {
    forall i, j :: 0 <= i < j < |s| ==> !Precedes(dir, s[j].score, s[i].score)
  }

  /**
   * Places `d` in front of the first document that does not strictly
   * precede it, so it stays ahead of documents with the same score that
   * came after it in the input.
   */
  function Insert(dir: Direction, d: Doc, s: seq<Doc>): (inserted: seq<Doc>)
  {
    if s == [] then [d]
    else if Precedes(dir, s[0].score, d.score) then [s[0]] + Insert(dir, d, s[1..])
    else [d] + s
  }

  /** `result.sort_by(...)`: a stable sort by score, as an insertion sort. */
  function SortByScore(dir: Direction, s: seq<Doc>): (sorted: seq<Doc>)
  {
    if s == [] then [] else Insert(dir, s[0], SortByScore(dir, s[1..]))
  }

  /** Inserting adds `d` and loses nothing. */
  lemma {:induction false} InsertPermutes(dir: Direction, d: Doc, s: seq<Doc>)
    ensures multiset(Insert(dir, d, s)) == multiset(s) + multiset{d}
  {
    if s != [] && Precedes(dir, s[0].score, d.score) {
      InsertPermutes(dir, d, s[1..]);
      assert s == [s[0]] + s[1..];
    }
  }

  /** Putting in front a document that nothing after it strictly precedes keeps the order. */
  lemma ConsOrdered(dir: Direction, x: Doc, rest: seq<Doc>)
    requires Ordered(dir, rest)
    requires forall y :: y in rest ==> !Precedes(dir, y.score, x.score)
    ensures Ordered(dir, [x] + rest)
  {
    var r := [x] + rest;
    forall i, j | 0 <= i < j < |r|
      ensures !Precedes(dir, r[j].score, r[i].score)
    {
      assert r[j] == rest[j - 1];
      if i > 0 {
        assert r[i] == rest[i - 1];
      }
    }
  }

  lemma {:induction false} InsertOrdered(dir: Direction, d: Doc, s: seq<Doc>)
    requires Ordered(dir, s)
    ensures Ordered(dir, Insert(dir, d, s))
  {
    if s == [] {
    } else if Precedes(dir, s[0].score, d.score) {
      var rest := Insert(dir, d, s[1..]);
      InsertOrdered(dir, d, s[1..]);
      InsertPermutes(dir, d, s[1..]);
      forall y | y in rest
        ensures !Precedes(dir, y.score, s[0].score)
      {
        assert y in multiset(rest);
      }
      ConsOrdered(dir, s[0], rest);
    } else {
      ConsOrdered(dir, d, s);
    }
  }

  /** The sort returns a rearrangement of its input, in order. */
  lemma {:induction false} SortByScoreSorts(dir: Direction, s: seq<Doc>)
    ensures multiset(SortByScore(dir, s)) == multiset(s)
    ensures Ordered(dir, SortByScore(dir, s))
  {
    if s != [] {
      var sorted := SortByScore(dir, s[1..]);
      SortByScoreSorts(dir, s[1..]);
      InsertPermutes(dir, s[0], sorted);
      InsertOrdered(dir, s[0], sorted);
      assert s == [s[0]] + s[1..];
    }
  }

  /** The documents of `s` scored exactly `v`, in the order of `s`. */
  function WithScore(s: seq<Doc>, v: real): (same: seq<Doc>)
  {
    if s == [] then []
    else (if s[0].score == v then [s[0]] else []) + WithScore(s[1..], v)
  }

  lemma {:induction false} WithScoreAppend(a: seq<Doc>, b: seq<Doc>, v: real)
    ensures WithScore(a + b, v) == WithScore(a, v) + WithScore(b, v)
  {
    if a == [] {
      assert a + b == b;
    } else {
      assert (a + b)[0] == a[0] && (a + b)[1..] == a[1..] + b;
      WithScoreAppend(a[1..], b, v);
    }
  }

  /**
   * Inserting `d` puts it ahead of every document scored like it: the
   * documents it passes all score strictly differently.
   */
  lemma {:induction false} InsertStable(dir: Direction, d: Doc, s: seq<Doc>, v: real)
    ensures WithScore(Insert(dir, d, s), v) == WithScore([d], v) + WithScore(s, v)
  {
    if s == [] {
      WithScoreAppend([d], [], v);
    } else if Precedes(dir, s[0].score, d.score) {
      var rest := Insert(dir, d, s[1..]);
      InsertStable(dir, d, s[1..], v);
      WithScoreAppend([s[0]], rest, v);
      WithScoreAppend([s[0]], s[1..], v);
      assert [s[0]] + s[1..] == s;
      var head, inserted, tail := WithScore([s[0]], v), WithScore([d], v), WithScore(s[1..], v);
      assert head == [] || inserted == [];
      assert head + (inserted + tail) == inserted + (head + tail);
    } else {
      WithScoreAppend([d], s, v);
    }
  }

  /**
   * The sort is stable: documents with equal scores come out in the order
   * they went in.
   */
  lemma {:induction false} SortByScoreStable(dir: Direction, s: seq<Doc>, v: real)
    ensures WithScore(SortByScore(dir, s), v) == WithScore(s, v)
  {
    if s != [] {
      var sorted := SortByScore(dir, s[1..]);
      SortByScoreStable(dir, s[1..], v);
      InsertStable(dir, s[0], sorted, v);
      WithScoreAppend([s[0]], s[1..], v);
      assert [s[0]] + s[1..] == s;
    }
  }

  /** What `query` hands back: the drained documents or the `drain` panic. */
  datatype QueryResult = Ok(docs: seq<Doc>) | DrainOutOfRange(end: nat, len: nat)

  /** `drain(..n).collect()`: the first `n` documents, or the out-of-range panic. */
  function Drain(s: seq<Doc>, n: nat): (r: QueryResult)
  {
    if n <= |s| then Ok(s[..n]) else DrainOutOfRange(n, |s|)
  }

  /** Sort, then drain. */
  function Rank(dir: Direction, candidates: seq<Doc>, n: nat): (r: QueryResult)
  {
    Drain(SortByScore(dir, candidates), n)
  }

  lemma SameLength(s: seq<Doc>, t: seq<Doc>)
    requires multiset(s) == multiset(t)
    ensures |s| == |t|
  {
    assert |s| == |multiset(s)|;
  }

  /** Splitting a permutation of `t` at `n`: what the prefix leaves of `t` is the suffix. */
  lemma PrefixOfPermutation(s: seq<Doc>, t: seq<Doc>, n: nat)
    requires multiset(s) == multiset(t) && n <= |s|
    ensures multiset(s[..n]) <= multiset(t)
    ensures forall y :: y in multiset(t) - multiset(s[..n]) ==> y in s[n..]
  {
    assert s == s[..n] + s[n..];
    assert multiset(t) - multiset(s[..n]) == multiset(s[n..]);
  }

  /** In an ordered sequence nothing after position `n` ranks strictly before anything up to it. */
  lemma PrefixBeatsRest(dir: Direction, s: seq<Doc>, n: nat)
    requires Ordered(dir, s) && n <= |s|
    ensures forall x, y :: x in s[..n] && y in s[n..] ==> !Precedes(dir, y.score, x.score)
  {
    forall x, y | x in s[..n] && y in s[n..]
      ensures !Precedes(dir, y.score, x.score)
    {
      var i :| 0 <= i < n && s[..n][i] == x;
      var j :| 0 <= j < |s| - n && s[n..][j] == y;
      assert s[i] == x && s[n + j] == y;
    }
  }

  /**
   * `query` fails exactly when more documents are asked for than there are
   * candidates; otherwise it returns `n` of them, in order, drawn from the
   * candidates, and no candidate left out ranks strictly before one returned.
   */
  lemma RankIsBestPrefix(dir: Direction, candidates: seq<Doc>, n: nat)
    ensures Rank(dir, candidates, n).Ok? <==> n <= |candidates|
    ensures Rank(dir, candidates, n).DrainOutOfRange? ==> Rank(dir, candidates, n) == DrainOutOfRange(n, |candidates|)
    ensures Rank(dir, candidates, n).Ok? ==>
      var r := Rank(dir, candidates, n).docs;
      |r| == n && Ordered(dir, r) && multiset(r) <= multiset(candidates) &&
      forall x, y :: x in r && y in multiset(candidates) - multiset(r) ==> !Precedes(dir, y.score, x.score)
  {
    var sorted := SortByScore(dir, candidates);
    SortByScoreSorts(dir, candidates);
    SameLength(sorted, candidates);
    if n <= |sorted| {
      PrefixOfPermutation(sorted, candidates, n);
      PrefixBeatsRest(dir, sorted, n);
    }
  }
}
