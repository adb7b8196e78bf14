/** The pure parts of `main.py` that deal with document passages: the
    records an upload builds, the sorted list of file names the listing
    endpoint returns, and the split of search results that deletion uses. */
module Documents {
  import opened Records
  import opened Strings
  import opened TextCleaning

  /** The passage for the unit at position `idx` of an uploaded file. */
  function PageRecord(fileName: string, idx: nat, page: string): Record
  {
    Record(StripNul(page), map[PAGE_NUMBER := Int(idx + 1), FILE_NAME := Str(fileName)])
  }

  /** The documents an upload builds: one passage per extracted unit, in
      order, numbered from 1, tagged with the upload's name, with the
      cleaned text. */
  function PageRecords(fileName: string, pages: seq<string>): (docs: Index)
    ensures |docs| == |pages| && DocIndex(docs)
    ensures forall i :: 0 <= i < |docs| ==>
              && FileName(docs[i]) == fileName
              && docs[i].metadata[PAGE_NUMBER] == Int(i + 1)
              && Some(docs[i].content) == CleanTextData(Some(pages[i]))
              && NUL !in docs[i].content
  {
    seq(|pages|, i requires 0 <= i < |pages| => PageRecord(fileName, i, pages[i]))
  }

  predicate StrictlySorted(names: seq<string>)
  {
    forall i :: 0 < i < |names| ==> LexLt(names[i - 1], names[i])
  }

  /** Add one name to a strictly sorted list of names, keeping it so. */
  function InsertName(name: string, names: seq<string>): (r: seq<string>)
    requires StrictlySorted(names)
    ensures StrictlySorted(r)
    ensures forall x :: x in r <==> x == name || x in names
    ensures r != [] && (r[0] == name || (names != [] && r[0] == names[0]))
  {
    if names == [] then [name]
    else if name == names[0] then names
    else if LexLt(name, names[0]) then [name] + names
    else
      LexLtTotal(name, names[0]);
      [names[0]] + InsertName(name, names[1..])
  }

  /** `sorted({doc.metadata["file_name"] for doc in results})`: every file
      name of the results exactly once, in increasing order. */
  function SortedFileNames(results: seq<Record>): (names: seq<string>)
    requires DocIndex(results)
    ensures StrictlySorted(names)
    ensures forall x :: x in names <==> exists i :: 0 <= i < |results| && FileName(results[i]) == x
  {
    if results == [] then []
    else
      var rest := SortedFileNames(results[1..]);
      assert forall i :: 0 < i < |results| ==> results[i] == results[1..][i - 1];
      InsertName(FileName(results[0]), rest)
  }

  /** `[doc for doc, score in results if doc.metadata["file_name"] == f]`. */
  function Matching(results: seq<Record>, fileName: string): (m: seq<Record>)
    requires DocIndex(results)
    ensures forall r :: r in m <==> r in results && FileName(r) == fileName
  {
    if results == [] then []
    else
      var rest := Matching(results[1..], fileName);
      if FileName(results[0]) == fileName then [results[0]] + rest else rest
  }

  /** `[doc for doc, score in results if doc.metadata["file_name"] != f]`. */
  function Remaining(results: seq<Record>, fileName: string): (m: seq<Record>)
    requires DocIndex(results)
    ensures DocIndex(m)
    ensures forall r :: r in m <==> r in results && FileName(r) != fileName
  {
    if results == [] then []
    else
      var rest := Remaining(results[1..], fileName);
      if FileName(results[0]) != fileName then [results[0]] + rest else rest
  }

  /** The two lists split the results: every result lands in exactly one of
      them, so the rebuilt index is smaller by exactly the number of
      passages of the deleted file. */
  lemma {:induction false} PartitionSizes(results: seq<Record>, fileName: string)
    requires DocIndex(results)
    ensures multiset(Matching(results, fileName)) + multiset(Remaining(results, fileName)) == multiset(results)
    ensures |Remaining(results, fileName)| == |results| - |Matching(results, fileName)|
  {
    if results != [] {
      PartitionSizes(results[1..], fileName);
      assert results == [results[0]] + results[1..];
    }
  }

  /** Filtering distributes over concatenation, so the rebuilt index keeps
      the surviving results in their rank order. */
  lemma {:induction false} RemainingAppend(a: seq<Record>, b: seq<Record>, fileName: string)
    requires DocIndex(a)
    requires DocIndex(b)
    ensures DocIndex(a + b)
    ensures Remaining(a + b, fileName) == Remaining(a, fileName) + Remaining(b, fileName)
  {
    if a == [] {
      assert a + b == b;
    } else {
      assert (a + b)[0] == a[0] && (a + b)[1..] == a[1..] + b;
      RemainingAppend(a[1..], b, fileName);
    }
  }

  /** Once an index has been rebuilt from the records of other files, no
      later listing of it names the deleted file. */
  lemma DeletedFileNotListed(results: seq<Record>, fileName: string, later: seq<Record>, k: nat)
    requires DocIndex(results)
    requires DrawnFrom(Remaining(results, fileName), later, k)
    ensures DocIndex(later)
    ensures fileName !in SortedFileNames(later)
  {
    var rebuilt := Remaining(results, fileName);
    forall i | 0 <= i < |later|
      ensures DocRecord(later[i]) && FileName(later[i]) != fileName
    {
      assert later[i] in rebuilt;
    }
  }
}
