/**
 * `CosineDB` of `cosine_db.rs`: a growing list of documents, ranked
 * against a query by cosine similarity, best first.
 */
module CosineBackend {
  import opened Primitives
  import opened Documents
  import opened Similarity
  import opened Ranking

  /**
   * The candidate list `query` builds before sorting: every stored document
   * in stored order, with its text and embedding, scored against `q`.
   */
  function Candidates(docs: seq<Doc>, q: seq<real>, sqrt: Root): (c: seq<Doc>)
    ensures |c| == |docs|
    ensures forall i :: 0 <= i < |docs| ==>
      c[i] == Doc(docs[i].text, docs[i].embedding, Cosine(docs[i].embedding, q, sqrt))
  {
    if docs == [] then []
    else
      var last := docs[|docs| - 1];
      Candidates(docs[..|docs| - 1], q, sqrt) + [Doc(last.text, last.embedding, Cosine(last.embedding, q, sqrt))]
  }

  class CosineDB {
    var docs: seq<Doc>

    /** `CosineDB { docs: Vec::new() }`. */
    constructor ()
      ensures docs == []
    {
      docs := [];
    }

    /** `load`: one document per text, pushed in input order with score 0. */
    method Load(texts: seq<string>, embed: Embedder)
      modifies this
      ensures docs == old(docs) + Embedded(texts, embed)
    {
      for i := 0 to |texts|
        invariant docs == old(docs) + Embedded(texts[..i], embed)
      {
        assert texts[..i + 1][..i] == texts[..i];
        var vect := embed(texts[i]);
        docs := docs + [Doc(texts[i], vect, 0.0)];
      }
      assert texts[..|texts|] == texts;
    }

    /**
     * `query`: scores every stored document against the query's embedding,
     * sorts best first and drains the first `n`. The stored documents are
     * only read.
     */
    method Query(query: string, n: u32, embed: Embedder, sqrt: Root) returns (r: QueryResult)
      ensures r == Rank(Descending, Candidates(docs, embed(query), sqrt), n)
      ensures r.Ok? <==> n <= |docs|
      ensures r.Ok? ==> |r.docs| == n && Ordered(Descending, r.docs)
    {
      var result: seq<Doc> := [];
      var queryEmbedding := embed(query);
      for i := 0 to |docs|
        invariant result == Candidates(docs[..i], queryEmbedding, sqrt)
      {
        assert docs[..i + 1][..i] == docs[..i];
        var doc := docs[i];
        var score := Cosine(doc.embedding, queryEmbedding, sqrt);
        result := result + [Doc(doc.text, doc.embedding, score)];
      }
      assert docs[..|docs|] == docs;
      result := SortByScore(Descending, result);
      r := Drain(result, n);
      RankIsBestPrefix(Descending, Candidates(docs, queryEmbedding, sqrt), n);
    }
  }

  /** `d` is the stored document `stored`, scored against `q`. */
  predicate ScoredCopy(d: Doc, stored: Doc, q: seq<real>, sqrt: Root)
  {
    d == Doc(stored.text, stored.embedding, Cosine(stored.embedding, q, sqrt))
  }

  /**
   * Every document `query` returns is a stored document, with the same text
   * and embedding, carrying its cosine similarity to the query.
   */
  lemma ResultsAreStored(docs: seq<Doc>, q: seq<real>, sqrt: Root, n: nat)
    ensures Rank(Descending, Candidates(docs, q, sqrt), n).Ok? ==>
      forall d :: d in Rank(Descending, Candidates(docs, q, sqrt), n).docs ==>
        exists k :: 0 <= k < |docs| && ScoredCopy(d, docs[k], q, sqrt)
  {
    var c := Candidates(docs, q, sqrt);
    RankIsBestPrefix(Descending, c, n);
    if Rank(Descending, c, n).Ok? {
      forall d | d in Rank(Descending, c, n).docs
        ensures exists k :: 0 <= k < |docs| && ScoredCopy(d, docs[k], q, sqrt)
      {
        assert d in multiset(c);
        var k :| 0 <= k < |c| && c[k] == d;
        assert ScoredCopy(d, docs[k], q, sqrt);
      }
    }
  }
}
