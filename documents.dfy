/**
 * The document record shared by the brute-force back ends (`Doc` of
 * `db.rs`) and the result of loading a batch of texts into it.
 */
module Documents {

  /**
   * A stored or returned document. `db.rs` names the last field
   * `similarity`, while both back ends construct it with a field `score`;
   * the model uses `score` throughout.
   */
  datatype Doc = Doc(text: string, embedding: seq<real>, score: real)

  /** The sentence-embedding model, a function of the text alone. */
  type Embedder = string -> seq<real>

  /**
   * The documents `load` pushes for `texts`, in input order: each text with
   * its embedding and a score of 0.
   */
  function Embedded(texts: seq<string>, embed: Embedder): (docs: seq<Doc>)
    ensures |docs| == |texts|
    ensures forall i :: 0 <= i < |texts| ==> docs[i] == Doc(texts[i], embed(texts[i]), 0.0)
  {
    if texts == [] then []
    else Embedded(texts[..|texts| - 1], embed) + [Doc(texts[|texts| - 1], embed(texts[|texts| - 1]), 0.0)]
  }
}
