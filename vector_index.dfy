/** The library collaborators of the pipeline, as far as the pipeline relies
    on them: the embedder (one vector per text, all of the model's dimension) and the
    exhaustive L2 index (a dimension and the vectors added to it, searched
    for `k` hits whose positions lie in `-1 .. ntotal - 1`). Ranking and
    distance computation happen inside the library and are left abstract. */
module VectorIndex {

  /** Every vector of `vs` has length `d`. */
  predicate AllOfDimension(vs: seq<seq<real>>, d: nat) {
    forall i :: 0 <= i < |vs| ==> |vs[i]| == d
  }

  /** The embedding client: the dimension of the vectors its model produces,
      `embed_documents` and `embed_query`. */
  datatype Embedder = Embedder(dim: nat, embedDocuments: seq<string> -> seq<seq<real>>, embedQuery: string -> seq<real>)

  /** What the pipeline relies on: one vector per input text, and every
      document or query vector of the model's one dimension. */
  ghost predicate EmbedderContract(e: Embedder) {
    && (forall texts: seq<string> ::
          |e.embedDocuments(texts)| == |texts| && AllOfDimension(e.embedDocuments(texts), e.dim))
    && (forall query: string :: |e.embedQuery(query)| == e.dim)
  }

  /** A flat L2 index: its dimension and the vectors added so far, in order
      (position `i` of `vectors` is the id `i` that a search reports). */
  datatype FlatIndex = FlatIndex(dim: nat, vectors: seq<seq<real>>) {
    /** `ntotal` */
    function Size(): nat {
      |vectors|
    }

    /** Every stored vector has the index's dimension. */
    ghost predicate Valid() {
      forall i :: 0 <= i < |vectors| ==> |vectors[i]| == dim
    }

    /** `index.add(xs)`: appends the rows of `xs`, which must have the
        index's dimension. */
    function Add(xs: seq<seq<real>>): (r: FlatIndex)
      requires forall i :: 0 <= i < |xs| ==> |xs[i]| == dim
      ensures Valid() ==> r.Valid()
      ensures r.dim == dim && r.Size() == Size() + |xs|
      ensures r.vectors[..Size()] == vectors && r.vectors[Size()..] == xs
    {
      FlatIndex(dim, vectors + xs)
    }
  }

  /** `IndexFlatL2(d)`: an empty index of dimension `d`. */
  function NewFlatIndexL2(d: nat): (ix: FlatIndex)
    ensures ix.Valid() && ix.Size() == 0 && ix.dim == d
  {
    FlatIndex(d, [])
  }

  /** The first rows of the `D` and `I` arrays that a search for one query returns. */
  datatype Hits = Hits(distances: seq<real>, ids: seq<int>)

  /** `k` hits, each id a stored position or the padding value -1. */
  predicate ValidHits(h: Hits, ntotal: nat, k: nat) {
    && |h.distances| == k
    && |h.ids| == k
    && forall j :: 0 <= j < k ==> -1 <= h.ids[j] < ntotal
  }

  /** What the pipeline relies on from `index.search(q, k)`: for a query of
      the index's dimension (FAISS rejects any other), `k` valid hits. */
  ghost predicate SearchContract(search: (FlatIndex, seq<real>, nat) -> Hits) {
    forall ix: FlatIndex, q: seq<real>, k: nat :: |q| == ix.dim ==> ValidHits(search(ix, q, k), ix.Size(), k)
  }
}
