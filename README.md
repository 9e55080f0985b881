# RAG pipeline retrieval core, modelled in Dafny

This project models `RAGPipeline` from `rag_utils.py`. This class is the knowledge-base
side of a voice agent. When it is constructed, it ingests a folder of text documents:

- it walks the file names in sorted order;
- it keeps the regular files whose names end in `.txt`;
- it splits each file's text into chunks and appends every chunk to two parallel
  lists, `texts` and `doc_text_map`. Each `doc_text_map` record is tagged with a
  running chunk number;
- when at least one chunk exists, it embeds all chunks and adds the vectors to a flat
  L2 index whose dimension is taken from the first vector.

`retrieve` embeds a query and searches the index for `k` hits. It turns each distance
`d` into the score `1 - d/2`. It keeps, in hit order, the hits whose id is not the
padding value -1 and whose score is at least the similarity threshold. It returns the
kept chunk texts and their scores as two parallel lists.

Modules:

- `Listing` (`listing.dfy`): folder entries, Python's string order, `sorted` as an
  insertion sort proved sorted and a permutation, and the `.txt` test.
- `VectorIndex` (`vector_index.dfy`): the embedder and the FAISS flat index. Both are
  given as contracts only. The embedder has one model dimension: it returns one vector
  per text, and every document or query vector has that dimension. A search for a query
  of the index's dimension returns `k` hits with ids in `-1 .. ntotal-1`.
- `Ingestion` (`ingestion.dfy`): `Pending`, the list of chunks that ingestion must record.
  Lemmas cover where each chunk comes from, file order, contiguity and the fact that
  skipped entries add nothing. `ExtensionPrefix` and `RunInPrefix` are two small facts
  about sequence prefixes that the other proofs use.
- `Retrieval` (`retrieval.dfy`): the score transform and `Kept`, the positions of the
  hits that pass the filter. Lemmas say exactly which hits are kept.
- `RagUtils` (`rag_utils.dfy`): the class `RagPipeline`. It has the fields of the source.
  Its constructor and `IngestDocs` fill `texts`, `docTextMap` and `index` in nested
  loops, proved against `Pending`. `Retrieve` is a loop with `continue`, proved against
  `Kept`. The file also holds the finding below and an end-to-end scenario.

The splitter, the embedder and the index search are library calls. They are passed in
as function values. The splitter is a `string -> seq<string>`. The embedder is its model
dimension and a pair of functions, kept in the `embedder` field. The search is a
parameter of `Retrieve`.
Distances and scores are `real`.

Behaviours of the code that the model keeps as they are:

- The pipeline has no lifecycle state of its own. It is built and ingested in the
  constructor, and `retrieve` only tests whether an index exists.
- With no chunks, the code leaves `index` as `None`. It does not build an empty index.
- Results keep the order of the search hits. The code does no sorting of its own.
- `if not self.index` is modelled as "no index was built".

## Model

| member | source | states |
|---|---|---|
| `Listing.NameLe` | rag_utils.py:21 | Defines the order `sorted` puts names in: code point by code point, with a proper prefix first. `NameLeReflexive`, `NameLeTotal`, `NameLeAntisymmetric` and `NameLeTransitive` prove it is a total order. |
| `Listing.NameLeReflexive` | rag_utils.py:21 | Every name is ordered before or equal to itself under Python's string order. |
| `Listing.NameLeTotal` | rag_utils.py:21 | Any two names are comparable: one is ordered before or equal to the other. |
| `Listing.NameLeAntisymmetric` | rag_utils.py:21 | Two names that are each ordered before or equal to the other are the same name. |
| `Listing.NameLeTransitive` | rag_utils.py:21 | The name order is transitive. |
| `Listing.EndsWithTxt` | rag_utils.py:23 | Defines `fname.endswith('.txt')`: the last four characters are `.txt`. `EndsWithTxtIff` characterises it. |
| `Listing.Ingestible` | rag_utils.py:23 | Defines the ingestion test: the entry is a regular file and its name ends in `.txt`. `SkippedEntry` shows that any other entry adds no chunk. |
| `Listing.EndsWithTxtIff` | rag_utils.py:23 | `endswith('.txt')` holds exactly when the name is some stem followed by `.txt`. |
| `Listing.Insert` | rag_utils.py:21 | Inserting one entry into a listing adds exactly that entry to its multiset. |
| `Listing.InsertSorted` | rag_utils.py:21 | Inserting into a name-sorted listing keeps it sorted. |
| `Listing.SortByName` | rag_utils.py:21 | Defines `sorted` on the listing, as an insertion sort by name. `SortByNameCorrect` proves the result sorted and a permutation of the listing. |
| `Listing.SortByNameCorrect` | rag_utils.py:21 | The sorted listing is in non-decreasing name order and is a permutation of the directory listing. |
| `Ingestion.Tagged` | rag_utils.py:26-28 | The pieces of one file become as many pending chunks. Chunk `m` carries the file's position, its name and piece `m`. |
| `Ingestion.FileChunks` | rag_utils.py:23-28 | Defines what one entry contributes: the tagged pieces of its text when the entry is ingestible, nothing otherwise. `SkippedEntry` and `PendingFileContiguous` state its effect. |
| `Ingestion.Pending` | rag_utils.py:21-29 | Defines the chunks of the whole sorted listing: the contributions of its entries, in listing order. The lemmas below state its properties. |
| `Ingestion.PendingStep` | rag_utils.py:21-29 | One more entry appends exactly its own chunks after the chunks of the entries before it. |
| `Ingestion.PendingOrigin` | rag_utils.py:21-28 | Every accumulated chunk comes from an entry that is a regular `.txt` file. It carries that file's name and is one of the pieces the splitter made of the file's text. |
| `Ingestion.PendingInFileOrder` | rag_utils.py:21-29 | All chunks of an earlier file come before all chunks of a later file. |
| `Ingestion.PendingPrefix` | rag_utils.py:21-29 | The chunks of the first `p` files are a prefix of the chunks of the whole listing, so chunks are only ever appended. |
| `Ingestion.PendingFileContiguous` | rag_utils.py:26-29 | All chunks of an ingestible file appear as one contiguous run, in the splitter's order, right after the chunks of the files before it. |
| `Ingestion.SkippedEntry` | rag_utils.py:23 | A directory or a non-`.txt` entry adds no chunk. |
| `Ingestion.IngestedInNameOrder` | rag_utils.py:21-28 | Over the sorted listing, the file names recorded with the chunks never decrease. |
| `Ingestion.IngestedFromListing` | rag_utils.py:21-28 | Each recorded chunk comes from an ingestible entry of the original directory listing with that name. |
| `Ingestion.SomeChunkPending` | rag_utils.py:21-30 | A `.txt` file whose text splits into at least one chunk makes the chunk list non-empty, wherever that file sits in the listing. |
| `VectorIndex.NewFlatIndexL2` | rag_utils.py:32 | A new flat index is empty and has the requested dimension. |
| `VectorIndex.FlatIndex.Add` | rag_utils.py:33 | Adding rows of the index's dimension keeps every stored vector at that dimension. The rows are appended after the existing ones, in order. |
| `Retrieval.Score` | rag_utils.py:40 | The score determines the distance: `d == 2 * (1 - score)`. |
| `Retrieval.Scores` | rag_utils.py:40 | Defines the score vector: `Score` applied to each distance. `ThreeHitExample` and `ScenarioHits` evaluate it. |
| `Retrieval.ScoreOfExactMatch` | rag_utils.py:40 | A distance of 0 gives a score of exactly 1. |
| `Retrieval.ScoreAntitone` | rag_utils.py:40 | A closer hit never scores lower. |
| `Retrieval.ScoreThresholdIsDistanceCutoff` | rag_utils.py:40-44 | `score >= threshold` holds exactly when `d <= 2 * (1 - threshold)`. |
| `Retrieval.Passes` | rag_utils.py:44 | Defines the filter: the id is not negative and the score is not below the threshold. `KeptExactly` proves that exactly the passing hits are kept. |
| `Retrieval.Kept` | rag_utils.py:43-45 | The kept positions are strictly increasing, so there is no reordering and no duplicate. There are no more of them than hits. Each one names a hit with a non-negative id and a score of at least the threshold. |
| `Retrieval.KeptExactly` | rag_utils.py:43-45 | A hit is kept if and only if its id is not negative and its score is not below the threshold. A score equal to the threshold is kept. |
| `Retrieval.KeptStep` | rag_utils.py:43-48 | Handling one more hit appends its position exactly when it passes, and leaves the earlier selection alone. |
| `Retrieval.ThreeHitExample` | rag_utils.py:40-48 | Distances 0.1, 0.4 and 1.0 give scores 0.95, 0.8 and 0.5. With threshold 0.75 the first two are kept. |
| `RagUtils.RecordsExtend` | rag_utils.py:27-29 | Appending the next chunk's text, and the record numbered by the count so far, records one more chunk. |
| `RagUtils.RecordsNumbered` | rag_utils.py:27-29 | Lists that record pending chunks run in parallel, and record `i` carries number `i` and text `texts[i]`. |
| `RagUtils.RagPipeline.constructor` | rag_utils.py:7-16 | The threshold defaults to 0.75 and `k` to 3. It stores the folder, threshold, `k` and embedder, and starts `docs` empty. After ingestion the pipeline invariant holds, and the chunk lists are exactly the chunks of the sorted, filtered listing. |
| `RagUtils.RagPipeline.IngestDocs` | rag_utils.py:18-33 | `texts` and `doc_text_map` are equally long and hold exactly the chunks of the sorted, filtered listing. Record `i` is `(i, file name, texts[i])`. The index exists exactly when some chunk exists, holds the embedded vectors in chunk order, and has the first vector's dimension, which is the embedder's dimension. |
| `RagUtils.RagPipeline.AnsweredStep` | rag_utils.py:43-48 | One more hit appends its chunk text and score to the answer when it passes the filter, and leaves the answer unchanged otherwise. |
| `RagUtils.RagPipeline.AnsweredBounds` | rag_utils.py:41-49 | An answer has two lists of equal length, no longer than the hits, and every score in it is at least the threshold. |
| `RagUtils.RagPipeline.Retrieve` | rag_utils.py:35-49 | With no index it returns two empty lists. Otherwise the query vector has the index's dimension, so the search returns `k` valid hits. The outputs are the hits selected by `Kept`, in hit order, each mapped through `doc_text_map` to its chunk text and paired with its score. The two lists are equally long and at most `k` long, and every returned score is at least the threshold. Nothing in the pipeline changes. |
| `RagUtils.InitAsWritten` | rag_utils.py:30-33 | Defines construction as written: it succeeds only when no chunk was accumulated, and raises `NameError` otherwise. `AsWrittenRaisesOnAnyText` states the consequence. |
| `RagUtils.AsWrittenRaisesOnAnyText` | rag_utils.py:30-33 | As written, any `.txt` file with at least one chunk makes construction raise `NameError`. |
| `RagUtils.IntendedIngestionBuildsIndex` | rag_utils.py:30-33 | As intended, the same input yields an index with one vector per chunk. |
| `RagUtils.ScenarioHits` | rag_utils.py:39-45 | With one stored vector `[1, 0]`, a scan for `[1, 0]` reports distance 0 and a scan for `[0, 1]` distance 2, each followed by padding. Under the default threshold the first hit is kept and the second dropped. |
| `RagUtils.OneFileScenario` | rag_utils.py:7-49 | The folder holds `a.txt` (one chunk) and a directory, and the pipeline uses the default threshold and `k`. The search scans the index by squared L2 distance. A query that embeds to the chunk's own vector returns exactly that chunk, with score 1. |
| `RagUtils.OrthogonalQueryScenario` | rag_utils.py:7-49 | The same folder, with a query that embeds orthogonally to the chunk (distance 2, score 0), returns two empty lists. |

## Left out

- `main.py`, the voice-agent glue (speech, LLM, TTS and session lifecycle), is not part of this model.
- The text splitter's chunk size (512) and overlap (50) at rag_utils.py:19 are library behaviour. The splitter is an arbitrary function, so nothing is claimed about chunk lengths or overlaps.
- The embedding service calls are network I/O. They are total functions that return one vector per text. Every document and query vector has the embedder's one model dimension. Provider failures are not modelled.
- FAISS computes distances, ranks hits and breaks ties inside the library. Search is a parameter. Its only promise, for a query of the index's dimension, is `k` hits with ids in `-1 .. ntotal-1`. FAISS rejects a query of any other dimension, and the embedder's contract rules that case out. Nothing is claimed about distance values or hit order, so descending-score output is not claimed either.
- `k` is a natural number. FAISS's rejection of a non-positive `k` is not modelled.
- The folder is a given list of entries (name, is-regular-file, content). Path joining, file reading and UTF-8 decoding errors are not modelled.
- The float32 conversion and floating-point rounding are not modelled: distances and scores are exact reals.
- `RagUtils.RagPipeline.Retrieve` does not state that the embedder and the search are skipped when there is no index, because the collaborators are pure function values whose calls leave no trace.
- `RagUtils.RagPipeline.IngestDocs` requires empty lists and no index. Its only caller, the constructor, guarantees this, and the running counter restarts at 0 on each call.
- The `docs` field is kept but never filled, as in the source.

## Findings

| source | as written | input that shows it | evidently intended | confidence | as-written member | corrected member |
|---|---|---|---|---|---|---|
| rag_utils.py:33 | `np.array(vectors)` uses `np`, which the file never imports. Construction raises `NameError` whenever at least one chunk was accumulated. Line 39 has the same fault in `retrieve`. | a folder holding one file `a.txt` whose text splits into one chunk | convert the vectors to a float32 array and add them to the index; search with the query converted the same way | not executed | `RagUtils.AsWrittenRaisesOnAnyText` | `RagUtils.IntendedIngestionBuildsIndex` |
