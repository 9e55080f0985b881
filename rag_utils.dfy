/** The retrieval pipeline: ingests a folder of text files into chunk lists
    and a flat L2 index at construction, then answers queries with the
    chunks whose similarity score reaches the threshold. */
module RagUtils {
  import opened Listing
  import opened VectorIndex
  import opened Ingestion
  import opened Retrieval

  datatype Option<T> = None | Some(value: T)

  const DefaultSimilarityThreshold: real := 0.75
  const DefaultK: nat := 3

  /** One record of `doc_text_map`: the global chunk number, the file it
      came from and the chunk text. */
  datatype DocChunk = DocChunk(idx: int, fname: string, text: string)

  /** `texts` and `doc_text_map` hold exactly the pending chunks `p`, numbered from 0. */
  ghost predicate Records(texts: seq<string>, docTextMap: seq<DocChunk>, p: seq<PendingChunk>) {
    && |texts| == |p|
    && |docTextMap| == |p|
    && forall i :: 0 <= i < |p| ==> texts[i] == p[i].text && docTextMap[i] == DocChunk(i, p[i].fname, p[i].text)
  }

  /** Appending chunk `c` of a run, numbered by the count so far, records
      one more chunk of that run. */
  lemma RecordsExtend(texts: seq<string>, docTextMap: seq<DocChunk>, done: seq<PendingChunk>, run: seq<PendingChunk>, c: nat)
    requires c < |run| && Records(texts, docTextMap, done + run[..c])
    ensures Records(texts + [run[c].text], docTextMap + [DocChunk(|texts|, run[c].fname, run[c].text)], done + run[..c + 1])
  {
    assert done + run[..c + 1] == (done + run[..c]) + [run[c]];
  }

  /** Recorded lists run in parallel and record `i` carries number `i`. */
  lemma RecordsNumbered(texts: seq<string>, docTextMap: seq<DocChunk>, p: seq<PendingChunk>)
    requires Records(texts, docTextMap, p)
    ensures |docTextMap| == |texts|
    ensures forall i :: 0 <= i < |texts| ==> docTextMap[i].idx == i && docTextMap[i].text == texts[i]
  {
  }

  class RagPipeline {
    var docsFolder: string
    var similarityThreshold: real
    var k: nat
    var embedder: Embedder
    var index: Option<FlatIndex>
    var docs: seq<string>
    var texts: seq<string>
    var docTextMap: seq<DocChunk>

    /** The pipeline's invariant: `texts` and `doc_text_map` run in parallel,
        record `i` carries number `i`, and an index exists exactly when there
        are chunks, holding one vector per chunk of the embedder's dimension. */
    ghost predicate Valid()
      reads this
    {
      && EmbedderContract(embedder)
      && |docTextMap| == |texts|
      && (forall i :: 0 <= i < |texts| ==> docTextMap[i].idx == i && docTextMap[i].text == texts[i])
      && (index.None? <==> texts == [])
      && (index.Some? ==> index.value.Valid() && index.value.Size() == |texts| && index.value.dim == embedder.dim)
    }

    /** The chunk lists hold exactly the pending chunks `p`, numbered from 0. */
    ghost predicate Holds(p: seq<PendingChunk>)
      reads this
    {
      Records(texts, docTextMap, p)
    }

    /** Builds the pipeline over the folder whose entries are `listing`. */
    constructor (docsFolder: string, listing: seq<Entry>, embedder: Embedder, split: string -> seq<string>,
                 similarityThreshold: real := DefaultSimilarityThreshold, k: nat := DefaultK)
      requires EmbedderContract(embedder)
      ensures Valid()
      ensures this.docsFolder == docsFolder && this.similarityThreshold == similarityThreshold && this.k == k
      ensures this.embedder == embedder && docs == []
      ensures Holds(Pending(SortByName(listing), split))
      ensures index.Some? ==>
        index.value.dim == |embedder.embedDocuments(texts)[0]| && index.value.vectors == embedder.embedDocuments(texts)
    {
      this.docsFolder := docsFolder;
      this.similarityThreshold := similarityThreshold;
      this.k := k;
      this.embedder := embedder;
      index := None;
      docs := [];
      texts := [];
      docTextMap := [];
      new;
      IngestDocs(listing, split);
    }

    /** Splits every ingestible file of the sorted listing, records each chunk
        with a running number, and builds the index when there is a chunk. */
    method IngestDocs(listing: seq<Entry>, split: string -> seq<string>)
      requires texts == [] && docTextMap == [] && index == None
      requires EmbedderContract(embedder)
      modifies this`texts, this`docTextMap, this`index
      ensures Valid()
      ensures Holds(Pending(SortByName(listing), split))
      ensures index.Some? ==>
        index.value.dim == |embedder.embedDocuments(texts)[0]| && index.value.vectors == embedder.embedDocuments(texts)
    {
      var files := SortByName(listing);
      var curIdx := 0;
      for f := 0 to |files|
        invariant Records(texts, docTextMap, Pending(files[..f], split))
        invariant curIdx == |texts|
        invariant index == None
      {
        var e := files[f];
        ghost var done := Pending(files[..f], split);
        ghost var run := FileChunks(f, e, split);
        PendingStep(files, split, f);
        if e.isFile && EndsWithTxt(e.name) {
          var chunks := split(e.content);
          assert run == Tagged(f, e.name, chunks);
          for c := 0 to |chunks|
            invariant Records(texts, docTextMap, done + run[..c])
            invariant curIdx == |texts|
            invariant index == None
          {
            RecordsExtend(texts, docTextMap, done, run, c);
            texts := texts + [chunks[c]];
            docTextMap := docTextMap + [DocChunk(curIdx, e.name, chunks[c])];
            curIdx := curIdx + 1;
          }
          assert run[..|chunks|] == run;
        } else {
          assert run == [] && done + run == done;
        }
      }
      assert files[..|files|] == files;
      RecordsNumbered(texts, docTextMap, Pending(files, split));
      if texts != [] {
        var vectors := embedder.embedDocuments(texts);
        assert |vectors| == |texts| && AllOfDimension(vectors, embedder.dim);
        var ix := NewFlatIndexL2(|vectors[0]|);
        ix := ix.Add(vectors);
        index := Some(ix);
      }
    }

    /** `results`/`resultScores` are the order-preserving selection of the
        hits (`ids` with their `scores`) that pass the filter, each mapped
        through `doc_text_map` to its chunk text. */
    ghost predicate Answered(ids: seq<int>, scores: seq<real>, results: seq<string>, resultScores: seq<real>)
      reads this
      requires |ids| == |scores|
    {
      var ps := Kept(ids, scores, similarityThreshold);
      && |results| == |ps|
      && |resultScores| == |ps|
      && forall m :: 0 <= m < |ps| ==>
        && ids[ps[m]] < |docTextMap|
        && results[m] == docTextMap[ids[ps[m]]].text
        && resultScores[m] == scores[ps[m]]
    }

    /** The answer to a search that returned `hits`. */
    ghost predicate Answers(hits: Hits, results: seq<string>, resultScores: seq<real>)
      reads this
      requires |hits.ids| == |hits.distances|
    {
      Answered(hits.ids, Scores(hits.distances), results, resultScores)
    }

    /** One step of the filter loop: a passing hit appends its text and
        score, any other hit leaves the answer as it is. */
    lemma AnsweredStep(ids: seq<int>, scores: seq<real>, i: nat, results: seq<string>, resultScores: seq<real>)
      requires |ids| == |scores| && i < |ids| && ids[i] < |docTextMap|
      requires Answered(ids[..i], scores[..i], results, resultScores)
      ensures Passes(ids[i], scores[i], similarityThreshold) ==>
        Answered(ids[..i + 1], scores[..i + 1], results + [docTextMap[ids[i]].text], resultScores + [scores[i]])
      ensures !Passes(ids[i], scores[i], similarityThreshold) ==>
        Answered(ids[..i + 1], scores[..i + 1], results, resultScores)
    {
      KeptStep(ids, scores, similarityThreshold, i);
    }

    /** An answer has two lists of equal length, no longer than the hits,
        and every score in it reaches the threshold. */
    lemma AnsweredBounds(ids: seq<int>, scores: seq<real>, results: seq<string>, resultScores: seq<real>)
      requires |ids| == |scores|
      requires Answered(ids, scores, results, resultScores)
      ensures |results| == |resultScores| <= |ids|
      ensures forall m :: 0 <= m < |resultScores| ==> resultScores[m] >= similarityThreshold
    {
      var ps := Kept(ids, scores, similarityThreshold);
      forall m | 0 <= m < |resultScores|
        ensures resultScores[m] >= similarityThreshold
      {
        assert Passes(ids[ps[m]], scores[ps[m]], similarityThreshold);
      }
    }

    /** Embeds the query, searches the index for `k` hits and returns the
        texts and scores of those that pass the filter; with no index, two
        empty lists. */
    method Retrieve(query: string, search: (FlatIndex, seq<real>, nat) -> Hits)
      returns (results: seq<string>, resultScores: seq<real>)
      requires Valid()
      requires SearchContract(search)
      ensures index.None? ==> results == [] && resultScores == []
      ensures index.Some? ==> Answers(search(index.value, embedder.embedQuery(query), k), results, resultScores)
      ensures |results| == |resultScores| <= k
      ensures forall m :: 0 <= m < |resultScores| ==> resultScores[m] >= similarityThreshold
    {
      if index.None? {
        return [], [];
      }
      var queryVec := embedder.embedQuery(query);
      var hits := search(index.value, queryVec, k);
      assert |queryVec| == index.value.dim;
      assert ValidHits(hits, |docTextMap|, k);
      var scores := Scores(hits.distances);
      results, resultScores := [], [];
      for i := 0 to |hits.ids|
        invariant Answered(hits.ids[..i], scores[..i], results, resultScores)
      {
        AnsweredStep(hits.ids, scores, i, results, resultScores);
        var idx, sc := hits.ids[i], scores[i];
        if idx < 0 || sc < similarityThreshold {
          continue;
        }
        var DocChunk(_, fname, text) := docTextMap[idx];
        results := results + [text];
        resultScores := resultScores + [sc];
      }
      assert hits.ids[..|hits.ids|] == hits.ids;
      assert scores[..|hits.ids|] == scores;
      AnsweredBounds(hits.ids, scores, results, resultScores);
    }
  }

  /** How a call to the pipeline's constructor ends. */
  datatype InitOutcome = Constructed | Raised(error: string)

  /** Construction as rag_utils.py is written: the index build evaluates
      `np.array(...)` but the file never imports `numpy` under that name, so
      construction raises `NameError` as soon as one chunk was accumulated;
      only a folder that yields no chunk constructs. */
  function InitAsWritten(listing: seq<Entry>, split: string -> seq<string>): InitOutcome {
    if Pending(SortByName(listing), split) == [] then Constructed
    else Raised("NameError: name 'np' is not defined")
  }

  /** As written, any ingestible file with at least one chunk makes
      construction fail, so no pipeline with an index ever exists. */
  lemma AsWrittenRaisesOnAnyText(listing: seq<Entry>, split: string -> seq<string>, j: nat)
    requires j < |listing| && Ingestible(listing[j]) && split(listing[j].content) != []
    ensures InitAsWritten(listing, split).Raised?
  {
    SomeChunkPending(listing, split, j);
  }

  /** The same input, ingested as intended, yields an index holding one
      vector per chunk. */
  lemma IntendedIngestionBuildsIndex(p: RagPipeline, listing: seq<Entry>, split: string -> seq<string>, j: nat)
    requires p.Valid() && p.Holds(Pending(SortByName(listing), split))
    requires j < |listing| && Ingestible(listing[j]) && split(listing[j].content) != []
    ensures p.index.Some? && p.index.value.Size() == |p.texts| > 0
  {
    SomeChunkPending(listing, split, j);
  }

  /** Scenario collaborators: every text embeds to the same unit vector, a
      non-empty text is one chunk, and the search scans the stored vectors,
      reporting each with its squared L2 distance to the query and padding
      the remaining hits with id -1 at a large distance. The scan does not
      rank; with one stored vector there is nothing to rank. */
  function SameVectorForAll(texts: seq<string>): seq<seq<real>> {
    seq(|texts|, i => [1.0, 0.0])
  }

  function SameVector(query: string): seq<real> {
    [1.0, 0.0]
  }

  function OrthogonalVector(query: string): seq<real> {
    [0.0, 1.0]
  }

  function WholeTextChunk(text: string): seq<string> {
    if text == [] then [] else [text]
  }

  const PaddingDistance: real := 1000.0

  function SquaredL2(a: seq<real>, b: seq<real>): real
    decreases |a|
  {
    if a == [] || b == [] then 0.0 else (a[0] - b[0]) * (a[0] - b[0]) + SquaredL2(a[1..], b[1..])
  }

  /** Hit `j` of the scan: stored vector `j` with its distance, or padding. */
  function ScanDistance(ix: FlatIndex, q: seq<real>, j: nat): real {
    if j < ix.Size() then SquaredL2(q, ix.vectors[j]) else PaddingDistance
  }

  function ScanId(ix: FlatIndex, j: nat): int {
    if j < ix.Size() then j else -1
  }

  function ScanSearch(ix: FlatIndex, q: seq<real>, n: nat): Hits {
    Hits(seq(n, j requires 0 <= j => ScanDistance(ix, q, j)), seq(n, j requires 0 <= j => ScanId(ix, j)))
  }

  lemma ScenarioCollaborators()
    ensures EmbedderContract(Embedder(2, SameVectorForAll, SameVector))
    ensures EmbedderContract(Embedder(2, SameVectorForAll, OrthogonalVector))
    ensures SearchContract(ScanSearch)
  {
  }

  lemma ScenarioChunks(listing: seq<Entry>)
    requires listing == [Entry("notes", false, ""), Entry("a.txt", true, "hello")]
    ensures Pending(SortByName(listing), WholeTextChunk) == [PendingChunk(0, "a.txt", "hello")]
  {
    var a, b := Entry("a.txt", true, "hello"), Entry("notes", false, "");
    assert NameLe(a.name, b.name);
    assert SortByName(listing[1..]) == [a];
    assert SortByName(listing) == [a, b];
    assert Ingestible(a) && !Ingestible(b);
    assert WholeTextChunk(a.content) == ["hello"];
    assert Tagged(0, "a.txt", ["hello"]) == [PendingChunk(0, "a.txt", "hello")] by {
      assert ["hello"][..0] == [];
    }
    assert FileChunks(0, a, WholeTextChunk) == [PendingChunk(0, "a.txt", "hello")];
    assert FileChunks(1, b, WholeTextChunk) == [];
    assert [a, b][..1] == [a];
    assert [a][..0] == [];
    assert Pending([a], WholeTextChunk) == [PendingChunk(0, "a.txt", "hello")];
  }

  /** The scan over the one stored vector `[1, 0]` with query `q` reports
      that vector at distance `d`, then two padding hits. */
  lemma ScanOneVector(ix: FlatIndex, q: seq<real>, d: real)
    requires ix.vectors == [[1.0, 0.0]] && SquaredL2(q, [1.0, 0.0]) == d
    ensures ScanSearch(ix, q, 3) == Hits([d, PaddingDistance, PaddingDistance], [0, -1, -1])
  {
    var h := ScanSearch(ix, q, 3);
    assert |h.distances| == 3 && |h.ids| == 3;
    assert h.distances[0] == ScanDistance(ix, q, 0) == d;
    assert h.distances[1] == ScanDistance(ix, q, 1) == PaddingDistance;
    assert h.distances[2] == ScanDistance(ix, q, 2) == PaddingDistance;
    assert h.ids[0] == ScanId(ix, 0) == 0 && h.ids[1] == ScanId(ix, 1) == -1 && h.ids[2] == ScanId(ix, 2) == -1;
    assert h.distances == [d, PaddingDistance, PaddingDistance];
    assert h.ids == [0, -1, -1];
  }

  /** The same vector is at distance 0 (score 1, kept); the orthogonal one
      at distance 2 (score 0, dropped). */
  lemma ScenarioHits(ix: FlatIndex)
    requires ix.vectors == [[1.0, 0.0]]
    ensures ScanSearch(ix, [1.0, 0.0], 3) == Hits([0.0, PaddingDistance, PaddingDistance], [0, -1, -1])
    ensures ScanSearch(ix, [0.0, 1.0], 3) == Hits([2.0, PaddingDistance, PaddingDistance], [0, -1, -1])
    ensures Scores([0.0, PaddingDistance, PaddingDistance]) == [1.0, -499.0, -499.0]
    ensures Scores([2.0, PaddingDistance, PaddingDistance]) == [0.0, -499.0, -499.0]
    ensures Kept([0, -1, -1], [1.0, -499.0, -499.0], DefaultSimilarityThreshold) == [0]
    ensures Kept([0, -1, -1], [0.0, -499.0, -499.0], DefaultSimilarityThreshold) == []
  {
    assert SquaredL2([1.0, 0.0], [1.0, 0.0]) == 0.0 by {
      assert [1.0, 0.0][1..] == [0.0] && [0.0][1..] == [];
    }
    assert SquaredL2([0.0, 1.0], [1.0, 0.0]) == 2.0 by {
      assert [0.0, 1.0][1..] == [1.0] && [1.0, 0.0][1..] == [0.0] && [1.0][1..] == [] && [0.0][1..] == [];
    }
    ScanOneVector(ix, [1.0, 0.0], 0.0);
    ScanOneVector(ix, [0.0, 1.0], 2.0);
    var ids: seq<int> := [0, -1, -1];
    assert ids[..2] == [0, -1] && ids[..2][..1] == [0] && ids[..2][..1][..0] == [];
    var near: seq<real> := [1.0, -499.0, -499.0];
    assert near[..2] == [1.0, -499.0] && near[..2][..1] == [1.0] && near[..2][..1][..0] == [];
    var far: seq<real> := [0.0, -499.0, -499.0];
    assert far[..2] == [0.0, -499.0] && far[..2][..1] == [0.0] && far[..2][..1][..0] == [];
  }

  /** With the one hit at score 1 and the rest padding, the answer is that
      hit's chunk text at score 1. */
  lemma SingleAnswer(p: RagPipeline, results: seq<string>, resultScores: seq<real>)
    requires p.similarityThreshold == DefaultSimilarityThreshold && |p.docTextMap| == 1
    requires p.Answered([0, -1, -1], [1.0, -499.0, -499.0], results, resultScores)
    ensures results == [p.docTextMap[0].text] && resultScores == [1.0]
  {
    ScenarioHits(FlatIndex(2, [[1.0, 0.0]]));
  }

  /** One short file "a.txt" beside a directory, split into one chunk, and a
      pipeline with the default threshold and `k`. A query that embeds to the
      chunk's own vector (distance 0) gets the chunk back with score 1. */
  method OneFileScenario() returns (results: seq<string>, resultScores: seq<real>)
    ensures results == ["hello"] && resultScores == [1.0]
  {
    var embedder := Embedder(2, SameVectorForAll, SameVector);
    var listing := [Entry("notes", false, ""), Entry("a.txt", true, "hello")];
    ScenarioCollaborators();
    ScenarioChunks(listing);
    var pipeline := new RagPipeline("docs", listing, embedder, WholeTextChunk);
    assert pipeline.texts == ["hello"] && pipeline.docTextMap[0].text == "hello";
    assert pipeline.index.value.vectors == [[1.0, 0.0]];
    ScenarioHits(pipeline.index.value);
    var query := "what is in a.txt?";
    results, resultScores := pipeline.Retrieve(query, ScanSearch);
    var hits := ScanSearch(pipeline.index.value, [1.0, 0.0], 3);
    assert pipeline.Answers(hits, results, resultScores);
    assert pipeline.Answered([0, -1, -1], [1.0, -499.0, -499.0], results, resultScores);
    SingleAnswer(pipeline, results, resultScores);
  }

  /** The same folder, but the query embeds orthogonally to the chunk
      (distance 2, score 0): nothing reaches the default threshold. */
  method OrthogonalQueryScenario() returns (results: seq<string>, resultScores: seq<real>)
    ensures results == [] && resultScores == []
  {
    var embedder := Embedder(2, SameVectorForAll, OrthogonalVector);
    var listing := [Entry("notes", false, ""), Entry("a.txt", true, "hello")];
    ScenarioCollaborators();
    ScenarioChunks(listing);
    var pipeline := new RagPipeline("docs", listing, embedder, WholeTextChunk);
    assert pipeline.index.value.vectors == [[1.0, 0.0]];
    ScenarioHits(pipeline.index.value);
    results, resultScores := pipeline.Retrieve("something unrelated", ScanSearch);
  }
}
