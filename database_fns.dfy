/**
 * `database_fns.rs`: the earlier database, built once from a batch of
 * texts and queried with a similarity threshold instead of a result count.
 */
module ThresholdDatabase {
  import opened Primitives
  import opened Similarity
  import Documents

  /** A stored document: its text and the text's embedding, without a score. */
  datatype Doc = Doc(text: string, embedding: seq<real>)
  {
    /** `get_text`: a copy of the stored text. */
    function GetText(): (t: string)
    {
      text
    }
  }

  /**
   * The documents of `docs` whose cosine similarity with `q` is strictly
   * above `threshold`, in stored order.
   */
  function Matching(docs: seq<Doc>, q: seq<real>, threshold: real, sqrt: Root): (matches: seq<Doc>)
  {
    if docs == [] then []
    else
      var last := docs[|docs| - 1];
      Matching(docs[..|docs| - 1], q, threshold, sqrt) + (if Cosine(last.embedding, q, sqrt) > threshold then [last] else [])
  }

  datatype DB = DB(docs: seq<Doc>)
  {
    /** `load`: one document per text, in input order, each with its embedding. */
    static method Load(texts: seq<string>, embed: Documents.Embedder) returns (db: DB)
      ensures |db.docs| == |texts|
      ensures forall i :: 0 <= i < |texts| ==> db.docs[i].GetText() == texts[i] && db.docs[i].embedding == embed(texts[i])
    {
      var docs: seq<Doc> := [];
      for i := 0 to |texts|
        invariant |docs| == i
        invariant forall k :: 0 <= k < i ==> docs[k] == Doc(texts[k], embed(texts[k]))
      {
        var vect := embed(texts[i]);
        docs := docs + [Doc(texts[i], vect)];
      }
      db := DB(docs);
    }

    /** `query`: the stored documents scoring strictly above `threshold`, in stored order. */
    method Query(query: string, threshold: real, embed: Documents.Embedder, sqrt: Root) returns (result: seq<Doc>)
      ensures result == Matching(docs, embed(query), threshold, sqrt)
    {
      result := [];
      var queryEmbedding := embed(query);
      for i := 0 to |docs|
        invariant result == Matching(docs[..i], queryEmbedding, threshold, sqrt)
      {
        assert docs[..i + 1][..i] == docs[..i];
        var doc := docs[i];
        if Cosine(doc.embedding, queryEmbedding, sqrt) > threshold {
          result := result + [Doc(doc.text, doc.embedding)];
        }
      }
      assert docs[..|docs|] == docs;
    }
  }

  /**
   * A document is returned exactly when it is stored and scores strictly
   * above the threshold; no more documents come back than are stored.
   */
  lemma {:induction false} MatchingMembers(docs: seq<Doc>, q: seq<real>, threshold: real, sqrt: Root)
    ensures forall d :: d in Matching(docs, q, threshold, sqrt) <==> d in docs && Cosine(d.embedding, q, sqrt) > threshold
    ensures |Matching(docs, q, threshold, sqrt)| <= |docs|
  {
    if docs != [] {
      var init := docs[..|docs| - 1];
      MatchingMembers(init, q, threshold, sqrt);
      assert docs == init + [docs[|docs| - 1]];
    }
  }

  /** The filter runs through the documents in order: it distributes over concatenation. */
  lemma {:induction false} MatchingAppend(a: seq<Doc>, b: seq<Doc>, q: seq<real>, threshold: real, sqrt: Root)
    ensures Matching(a + b, q, threshold, sqrt) == Matching(a, q, threshold, sqrt) + Matching(b, q, threshold, sqrt)
    decreases |b|
  {
    if b == [] {
      assert a + b == a;
    } else {
      var init := b[..|b| - 1];
      assert (a + b)[..|a + b| - 1] == a + init;
      MatchingAppend(a, init, q, threshold, sqrt);
    }
  }

  lemma MatchingSingle(d: Doc, q: seq<real>, threshold: real, sqrt: Root)
    ensures Matching([d], q, threshold, sqrt) == (if Cosine(d.embedding, q, sqrt) > threshold then [d] else [])
  {
    assert [d][..0] == [];
  }

  /** Querying the result again with the same threshold changes nothing. */
  lemma {:induction false} MatchingIdempotent(docs: seq<Doc>, q: seq<real>, threshold: real, sqrt: Root)
    ensures Matching(Matching(docs, q, threshold, sqrt), q, threshold, sqrt) == Matching(docs, q, threshold, sqrt)
  {
    if docs != [] {
      var init, last := docs[..|docs| - 1], docs[|docs| - 1];
      var kept := Matching(init, q, threshold, sqrt);
      var tail := if Cosine(last.embedding, q, sqrt) > threshold then [last] else [];
      assert Matching(docs, q, threshold, sqrt) == kept + tail;
      MatchingIdempotent(init, q, threshold, sqrt);
      MatchingAppend(kept, tail, q, threshold, sqrt);
      MatchingSingle(last, q, threshold, sqrt);
      assert Matching(tail, q, threshold, sqrt) == tail;
    }
  }

  /** The comparison is strict: a document scoring exactly the threshold is left out. */
  lemma AtThresholdExcluded(docs: seq<Doc>, q: seq<real>, threshold: real, sqrt: Root, d: Doc)
    requires Cosine(d.embedding, q, sqrt) == threshold
    ensures d !in Matching(docs, q, threshold, sqrt)
  {
    MatchingMembers(docs, q, threshold, sqrt);
  }

  /**
   * The zero-norm guard of `cosine` scores an all-zero embedding 0, so such
   * a stored document is returned exactly when the threshold is negative;
   * an all-zero query returns every document or none.
   */
  lemma ZeroEmbeddings(docs: seq<Doc>, q: seq<real>, threshold: real, sqrt: Root)
    ensures forall d :: d in docs && IsZero(d.embedding) ==> (d in Matching(docs, q, threshold, sqrt) <==> threshold < 0.0)
    ensures IsZero(q) ==> Matching(docs, q, threshold, sqrt) == (if threshold < 0.0 then docs else [])
  {
    MatchingMembers(docs, q, threshold, sqrt);
    forall d | d in docs && IsZero(d.embedding)
      ensures Cosine(d.embedding, q, sqrt) == 0.0
    {
      CosineGuard(d.embedding, q, sqrt);
    }
    if IsZero(q) {
      ZeroQuery(docs, q, threshold, sqrt);
    }
  }

  lemma {:induction false} ZeroQuery(docs: seq<Doc>, q: seq<real>, threshold: real, sqrt: Root)
    requires IsZero(q)
    ensures Matching(docs, q, threshold, sqrt) == (if threshold < 0.0 then docs else [])
  {
    if docs != [] {
      var init, last := docs[..|docs| - 1], docs[|docs| - 1];
      ZeroQuery(init, q, threshold, sqrt);
      CosineGuard(last.embedding, q, sqrt);
      assert docs == init + [last];
    }
  }

  /** Every text a query hands back through `get_text` is the text of a stored document. */
  lemma ResultTextsAreStored(docs: seq<Doc>, q: seq<real>, threshold: real, sqrt: Root)
    ensures forall d :: d in Matching(docs, q, threshold, sqrt) ==> exists k :: 0 <= k < |docs| && docs[k].GetText() == d.GetText()
  {
    MatchingMembers(docs, q, threshold, sqrt);
  }
}
