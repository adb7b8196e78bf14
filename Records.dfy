/** Values shared by the whole service: index records, their metadata,
    chat-log turns, and the well-formedness conditions each index keeps. */
module Records {

  datatype Option<+T> = None | Some(value: T)

  /** A metadata value as the vector store keeps it: a string, an integer,
      or the boolean flag of the seed record. */
  datatype Value = Str(s: string) | Int(n: int) | Flag(b: bool)

  /** One stored record of a vector index: its text and its metadata. */
  datatype Record = Record(content: string, metadata: map<string, Value>)

  /** A vector index, seen as the ordered list of records it holds;
      embeddings and distances are not part of the model. */
  type Index = seq<Record>

  /** One entry of a chat-log file. */
  datatype Turn = Turn(user: string, ai: string, timestamp: string)

  const FILE_NAME := "file_name"
  const PAGE_NUMBER := "page_number"
  const CHAT_ID := "chat_id"
  const USER := "user"
  const AI := "ai"
  const TIMESTAMP := "timestamp"

  predicate HasStr(r: Record, key: string)
  {
    key in r.metadata && r.metadata[key].Str?
  }

  /** A passage of the document index: it names its file and a positive page. */
  predicate DocRecord(r: Record)
  {
    HasStr(r, FILE_NAME) && PAGE_NUMBER in r.metadata
    && r.metadata[PAGE_NUMBER].Int? && r.metadata[PAGE_NUMBER].n >= 1
  }

  /** A turn of the chat-history index: all four metadata fields are present. */
  predicate ChatRecord(r: Record)
  {
    HasStr(r, CHAT_ID) && HasStr(r, USER) && HasStr(r, AI) && HasStr(r, TIMESTAMP)
  }

  predicate DocIndex(idx: Index)
  {
    forall i :: 0 <= i < |idx| ==> DocRecord(idx[i])
  }

  predicate ChatIndex(idx: Index)
  {
    forall i :: 0 <= i < |idx| ==> ChatRecord(idx[i])
  }

  lemma DocIndexAppend(a: Index, b: Index)
    requires DocIndex(a) && DocIndex(b)
    ensures DocIndex(a + b)
  {
  }

  function FileName(r: Record): string
    requires DocRecord(r)
  {
    r.metadata[FILE_NAME].s
  }

  /** What a similarity search may return: at most `k` records, each one
      a record of the searched index, in the order the search ranks them. */
  predicate DrawnFrom(idx: Index, results: seq<Record>, k: nat)
  {
    |results| <= k && forall i :: 0 <= i < |results| ==> results[i] in idx
  }
}
