/** The document folder as the pipeline sees it: the entries of one directory
    listing, the order `sorted` puts their names in, and the test that
    decides which entries are ingested. */
module Listing {

  /** One entry of the folder: its file name, whether the path names a
      regular file, and (for a text file) its decoded content. */
  datatype Entry = Entry(name: string, isFile: bool, content: string)

  /** Python's string order: lexicographic by code point, a proper prefix
      sorting first. */
  predicate NameLe(a: string, b: string)
    decreases |a|
  {
    if a == [] then true
    else if b == [] then false
    else a[0] < b[0] || (a[0] == b[0] && NameLe(a[1..], b[1..]))
  }

  lemma {:induction false} NameLeReflexive(a: string)
    ensures NameLe(a, a)
  {
    if a != [] {
      NameLeReflexive(a[1..]);
    }
  }

  lemma {:induction false} NameLeTotal(a: string, b: string)
    ensures NameLe(a, b) || NameLe(b, a)
  {
    if a != [] && b != [] && a[0] == b[0] {
      NameLeTotal(a[1..], b[1..]);
    }
  }

  lemma {:induction false} NameLeAntisymmetric(a: string, b: string)
    requires NameLe(a, b) && NameLe(b, a)
    ensures a == b
  {
    if a != [] && b != [] {
      NameLeAntisymmetric(a[1..], b[1..]);
      assert a == [a[0]] + a[1..];
      assert b == [b[0]] + b[1..];
    }
  }

  lemma {:induction false} NameLeTransitive(a: string, b: string, c: string)
    requires NameLe(a, b) && NameLe(b, c)
    ensures NameLe(a, c)
  {
    if a != [] && b != [] && c != [] && a[0] == b[0] && b[0] == c[0] {
      NameLeTransitive(a[1..], b[1..], c[1..]);
    }
  }

  /** `fname.endswith('.txt')`. */
  predicate EndsWithTxt(name: string) {
    |name| >= 4 && name[|name| - 4..] == ".txt"
  }

  lemma EndsWithTxtIff(name: string)
    ensures EndsWithTxt(name) <==> exists stem: string {:trigger stem + ".txt"} :: name == stem + ".txt"
  {
    forall stem: string
      ensures name == stem + ".txt" ==> EndsWithTxt(name)
    {
      if name == stem + ".txt" {
        assert name[|name| - 4..] == ".txt";
      }
    }
    if EndsWithTxt(name) {
      var stem := name[..|name| - 4];
      assert name == stem + ".txt";
    }
  }

  /** An entry contributes chunks exactly when it is a regular file whose
      name ends in `.txt`; directories and other extensions are skipped. */
  predicate Ingestible(e: Entry) {
    e.isFile && EndsWithTxt(e.name)
  }

  ghost predicate SortedByName(s: seq<Entry>) {
    forall i, j :: 0 <= i < j < |s| ==> NameLe(s[i].name, s[j].name)
  }

  /** Inserts `e` before the first entry whose name is not smaller. */
  function Insert(e: Entry, s: seq<Entry>): (r: seq<Entry>)
    ensures multiset(r) == multiset(s) + multiset{e}
  {
    if s == [] then [e]
    else if NameLe(e.name, s[0].name) then [e] + s
    else
      assert s == [s[0]] + s[1..];
      [s[0]] + Insert(e, s[1..])
  }

  /** `sorted(os.listdir(folder))`, carried over to whole entries. */
  function SortByName(entries: seq<Entry>): seq<Entry> {
    if entries == [] then [] else Insert(entries[0], SortByName(entries[1..]))
  }

  lemma {:induction false} InsertSorted(e: Entry, s: seq<Entry>)
    requires SortedByName(s)
    ensures SortedByName(Insert(e, s))
  {
    if s == [] {
    } else if NameLe(e.name, s[0].name) {
      forall j | 0 <= j < |s|
        ensures NameLe(e.name, s[j].name)
      {
        if j > 0 {
          NameLeTransitive(e.name, s[0].name, s[j].name);
        }
      }
    } else {
      NameLeTotal(e.name, s[0].name);
      var t := Insert(e, s[1..]);
      InsertSorted(e, s[1..]);
      forall j | 0 <= j < |t|
        ensures NameLe(s[0].name, t[j].name)
      {
        assert t[j] in multiset(t);
        if t[j] != e {
          assert t[j] in multiset(s[1..]);
          var m :| 0 <= m < |s[1..]| && s[1..][m] == t[j];
          assert t[j] == s[m + 1];
        }
      }
    }
  }

  /** The sorted listing is in name order and is a reordering of the listing. */
  lemma {:induction false} SortByNameCorrect(entries: seq<Entry>)
    ensures SortedByName(SortByName(entries))
    ensures multiset(SortByName(entries)) == multiset(entries)
  {
    if entries != [] {
      SortByNameCorrect(entries[1..]);
      InsertSorted(entries[0], SortByName(entries[1..]));
      assert entries == [entries[0]] + entries[1..];
    }
  }
}
