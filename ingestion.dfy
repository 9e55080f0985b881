/** What ingestion is meant to accumulate: for every ingestible file of the
    sorted listing, in that order, the chunks the splitter makes of its
    text, in the splitter's order. */
module Ingestion {
  import opened Listing

  /** A chunk waiting to be recorded: the position of its file in the sorted
      listing, that file's name and the chunk text. */
  datatype PendingChunk = PendingChunk(file: nat, fname: string, text: string)

  /** The pieces `parts` of file `pos`, named `name`, as pending chunks. */
  function Tagged(pos: nat, name: string, parts: seq<string>): (r: seq<PendingChunk>)
    ensures |r| == |parts|
    ensures forall m :: 0 <= m < |parts| ==> r[m] == PendingChunk(pos, name, parts[m])
    decreases |parts|
  {
    if parts == [] then []
    else Tagged(pos, name, parts[..|parts| - 1]) + [PendingChunk(pos, name, parts[|parts| - 1])]
  }

  /** The chunks one entry contributes when it stands at position `pos`. */
  function FileChunks(pos: nat, e: Entry, split: string -> seq<string>): seq<PendingChunk> {
    if Ingestible(e) then Tagged(pos, e.name, split(e.content)) else []
  }

  /** The chunks of the whole (sorted) listing `files`, in ingestion order. */
  function Pending(files: seq<Entry>, split: string -> seq<string>): seq<PendingChunk>
    decreases |files|
  {
    if files == [] then []
    else
      var n := |files| - 1;
      Pending(files[..n], split) + FileChunks(n, files[n], split)
  }

  /** Every chunk comes from an ingestible file: it names that file and is one
      of the pieces the splitter made of its text. */
  lemma {:induction false} PendingOrigin(files: seq<Entry>, split: string -> seq<string>)
    ensures forall i :: 0 <= i < |Pending(files, split)| ==>
      var c := Pending(files, split)[i];
      && c.file < |files|
      && Ingestible(files[c.file])
      && c.fname == files[c.file].name
      && c.text in split(files[c.file].content)
    decreases |files|
  {
    if files != [] {
      var n := |files| - 1;
      PendingOrigin(files[..n], split);
    }
  }

  /** Chunks of an earlier file come before chunks of a later one. */
  lemma {:induction false} PendingInFileOrder(files: seq<Entry>, split: string -> seq<string>)
    ensures forall i, j :: 0 <= i <= j < |Pending(files, split)| ==>
      Pending(files, split)[i].file <= Pending(files, split)[j].file
    decreases |files|
  {
    if files != [] {
      var n := |files| - 1;
      PendingInFileOrder(files[..n], split);
      PendingOrigin(files[..n], split);
    }
  }

  /** The chunks of a prefix of the listing are a prefix of the chunks of
      the whole listing. */
  lemma {:induction false} PendingPrefix(files: seq<Entry>, split: string -> seq<string>, p: nat)
    requires p <= |files|
    ensures Pending(files[..p], split) <= Pending(files, split)
    decreases |files| - p
  {
    if p < |files| {
      PendingStep(files, split, p);
      PendingPrefix(files, split, p + 1);
      ExtensionPrefix(Pending(files[..p], split), FileChunks(p, files[p], split), Pending(files, split));
    } else {
      assert files[..p] == files;
    }
  }

  /** All chunks of the ingestible file at position `j` appear, in the
      splitter's order, as one contiguous run right after the chunks of the
      files before it. */
  lemma PendingFileContiguous(files: seq<Entry>, split: string -> seq<string>, j: nat)
    requires j < |files| && Ingestible(files[j])
    ensures var o := |Pending(files[..j], split)|;
      var parts := split(files[j].content);
      && o + |parts| <= |Pending(files, split)|
      && forall m :: 0 <= m < |parts| ==>
        Pending(files, split)[o + m] == PendingChunk(j, files[j].name, parts[m])
  {
    var parts := split(files[j].content);
    var before := Pending(files[..j], split);
    var run := Tagged(j, files[j].name, parts);
    var whole := Pending(files, split);
    assert FileChunks(j, files[j], split) == run;
    PendingStep(files, split, j);
    PendingPrefix(files, split, j + 1);
    RunInPrefix(before, run, whole);
  }

  /** A sequence that starts with `a + c` starts with `a`. */
  lemma ExtensionPrefix<T>(a: seq<T>, c: seq<T>, b: seq<T>)
    requires a + c <= b
    ensures a <= b
  {
    assert b[..|a|] == (a + c)[..|a|];
  }

  /** In a sequence that starts with `before + run`, the elements of `run`
      sit right after `before`. */
  lemma RunInPrefix<T>(before: seq<T>, run: seq<T>, whole: seq<T>)
    requires before + run <= whole
    ensures |before| + |run| <= |whole|
    ensures forall m :: 0 <= m < |run| ==> whole[|before| + m] == run[m]
  {
    forall m | 0 <= m < |run|
      ensures whole[|before| + m] == run[m]
    {
      assert whole[|before| + m] == (before + run)[|before| + m];
    }
  }

  /** The chunks of one more file follow the chunks of the files before it. */
  lemma PendingStep(files: seq<Entry>, split: string -> seq<string>, f: nat)
    requires f < |files|
    ensures Pending(files[..f + 1], split) == Pending(files[..f], split) + FileChunks(f, files[f], split)
  {
    assert files[..f + 1][..f] == files[..f];
  }

  /** A file that is not ingestible adds nothing. */
  lemma SkippedEntry(files: seq<Entry>, e: Entry, split: string -> seq<string>)
    requires !Ingestible(e)
    ensures Pending(files + [e], split) == Pending(files, split)
  {
    assert (files + [e])[..|files|] == files;
  }

  /** Over the sorted listing, the recorded file names never decrease. */
  lemma IngestedInNameOrder(listing: seq<Entry>, split: string -> seq<string>)
    ensures var p := Pending(SortByName(listing), split);
      forall i, j :: 0 <= i <= j < |p| ==> NameLe(p[i].fname, p[j].fname)
  {
    var files := SortByName(listing);
    var p := Pending(files, split);
    SortByNameCorrect(listing);
    PendingOrigin(files, split);
    PendingInFileOrder(files, split);
    forall i, j | 0 <= i <= j < |p|
      ensures NameLe(p[i].fname, p[j].fname)
    {
      var fi, fj := p[i].file, p[j].file;
      assert fi <= fj < |files|;
      if fi == fj {
        NameLeReflexive(p[i].fname);
      } else {
        assert NameLe(files[fi].name, files[fj].name);
      }
    }
  }

  /** Every chunk comes from an ingestible entry of the original listing. */
  lemma IngestedFromListing(listing: seq<Entry>, split: string -> seq<string>, i: nat)
    requires i < |Pending(SortByName(listing), split)|
    ensures var c := Pending(SortByName(listing), split)[i];
      exists k :: 0 <= k < |listing| && Ingestible(listing[k]) && listing[k].name == c.fname
        && c.text in split(listing[k].content)
  {
    var files := SortByName(listing);
    SortByNameCorrect(listing);
    PendingOrigin(files, split);
    var c := Pending(files, split)[i];
    var e := files[c.file];
    assert e in multiset(listing) by {
      assert e in multiset(files);
    }
    var k :| 0 <= k < |listing| && listing[k] == e;
  }

  /** An ingestible entry whose text splits into at least one chunk makes the
      accumulated chunk list non-empty, wherever it sits in the listing. */
  lemma SomeChunkPending(listing: seq<Entry>, split: string -> seq<string>, k: nat)
    requires k < |listing| && Ingestible(listing[k]) && split(listing[k].content) != []
    ensures Pending(SortByName(listing), split) != []
  {
    var files := SortByName(listing);
    SortByNameCorrect(listing);
    assert listing[k] in multiset(files);
    var j :| 0 <= j < |files| && files[j] == listing[k];
    PendingFileContiguous(files, split, j);
  }
}
