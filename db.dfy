/**
 * `db.rs`: the back-end selector. The `DB` enum has a single live variant,
 * the cosine back end (the Euclidean variant is commented out), and the
 * `Operations` impl for `DB` forwards to it.
 */
module Dispatch {
  import opened Primitives
  import opened Documents
  import opened Ranking
  import opened CosineBackend

  datatype DB = Cosine(backend: CosineDB)
  {
    /** `load` on `DB`: the wrapped back end loads the texts. */
    method Load(texts: seq<string>, embed: Embedder)
      modifies backend
      ensures backend.docs == old(backend.docs) + Embedded(texts, embed)
    {
      match this
      case Cosine(db) => db.Load(texts, embed);
    }

    /** `query` on `DB`: the wrapped back end answers, nothing changes. */
    method Query(query: string, n: u32, embed: Embedder, sqrt: Root) returns (r: QueryResult)
      ensures r == Rank(Descending, Candidates(backend.docs, embed(query), sqrt), n)
      ensures r.Ok? <==> n <= |backend.docs|
      ensures r.Ok? ==> |r.docs| == n && Ordered(Descending, r.docs)
    {
      match this
      case Cosine(db) => r := db.Query(query, n, embed, sqrt);
    }
  }

  /**
   * `new`: "Cosine" selects the cosine back end, and so does every other
   * selector, "Euclidean" included, through the catch-all arm. Either way
   * the new back end holds no documents.
   */
  method New(dbMethod: string) returns (db: DB)
    ensures db.Cosine? && fresh(db.backend) && db.backend.docs == []
  {
    if dbMethod == "Cosine" {
      var backend := new CosineDB();
      db := Cosine(backend);
    } else {
      var backend := new CosineDB();
      db := Cosine(backend);
    }
  }
}
