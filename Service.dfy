/** The request handlers of `main.py` over the two process-wide indexes.
    The vector store, the PDF loader, the similarity search, the generation
    chain and the clock are oracles: their outputs are parameters. A
    search result is any list of at most `k` records of the searched index
    (`DrawnFrom`), in rank order; a call that may raise yields an `Outcome`. */
module Service {
  import opened Records
  import opened Strings
  import opened Stores
  import opened Documents
  import opened History
  import opened Prompting

  const DEFAULT_SEARCH_K: nat := 10
  const CHAT_HISTORY_SEARCH_K: nat := 3
  /** The "match everything" search the listing and the deletion rely on. */
  const ENUMERATE_K: nat := 1000

  const DOCS := "my_docs"
  const CHAT := "chat_history"
  const PDF := ".pdf"

  const ONLY_PDF := "Somente arquivos PDF são permitidos."
  const EMPTY_DOCUMENT := "O documento está vazio. Tente novamente com outro arquivo."
  const UPLOADED := "Documento carregado com sucesso com metadados."

  /** What a call into an external service gives back: a value, or an
      exception carrying its message. */
  datatype Outcome<T> = Done(value: T) | Raised(message: string)

  /** A handler's reply: a body, or an `HTTPException` with its status and
      detail. */
  datatype Response = Ok(body: string) | HttpError(status: nat, detail: string)

  /** `str(HTTPException(status, detail))`, as the generic handlers see it. */
  function HttpErrorText(status: nat, detail: string): string
  {
    NatToString(status) + ": " + detail
  }

  /** `get_or_create_faiss_index`: load the snapshot; when there is none,
      build an index from one seed record, delete that record, and save the
      now empty index. */
  method GetOrCreateIndex(disk: Disk, name: string) returns (index: Index)
    modifies disk
    ensures name in old(disk.snapshots) ==>
              index == old(disk.snapshots[name]) && disk.snapshots == old(disk.snapshots)
    ensures name !in old(disk.snapshots) ==>
              index == [] && disk.snapshots == old(disk.snapshots)[name := []]
    ensures disk.chatDir == old(disk.chatDir)
  {
    var loaded := disk.LoadIndex(name);
    if loaded.None? {
      var seeded := [Record("placeholder", map["placeholder" := Flag(true)])];
      index := seeded[1..];
      disk.SaveIndex(index, name);
    } else {
      index := loaded.value;
    }
  }

  /** Two calls in a row give the same index: the second finds the snapshot
      the first saved, so the index never grows. */
  method GetOrCreateTwice(disk: Disk, name: string) returns (first: Index, second: Index)
    modifies disk
    ensures second == first
    ensures name !in old(disk.snapshots) ==> first == [] && disk.snapshots == old(disk.snapshots)[name := []]
    ensures name in old(disk.snapshots) ==>
              first == old(disk.snapshots[name]) && disk.snapshots == old(disk.snapshots)
    ensures disk.chatDir == old(disk.chatDir)
  {
    first := GetOrCreateIndex(disk, name);
    second := GetOrCreateIndex(disk, name);
  }

  /** The running service: the document index `db`, the chat-history index
      `chat_history_db`, and the disk both are saved to. */
  class App {
    var db: Index
    var chatHistoryDb: Index
    const disk: Disk

    /** Both indexes are well formed and equal to their saved snapshots. */
    predicate Valid()
      reads this, disk
    {
      && DocIndex(db) && ChatIndex(chatHistoryDb)
      && DOCS in disk.snapshots && disk.snapshots[DOCS] == db
      && CHAT in disk.snapshots && disk.snapshots[CHAT] == chatHistoryDb
    }

    /** Start-up: `db` and `chat_history_db` come from
        `get_or_create_faiss_index`. */
    constructor (disk: Disk)
      requires DOCS in disk.snapshots ==> DocIndex(disk.snapshots[DOCS])
      requires CHAT in disk.snapshots ==> ChatIndex(disk.snapshots[CHAT])
      modifies disk
      ensures Valid() && this.disk == disk
      ensures DOCS in old(disk.snapshots) ==> db == old(disk.snapshots[DOCS])
      ensures DOCS !in old(disk.snapshots) ==> db == []
      ensures CHAT in old(disk.snapshots) ==> chatHistoryDb == old(disk.snapshots[CHAT])
      ensures CHAT !in old(disk.snapshots) ==> chatHistoryDb == []
      ensures disk.snapshots == old(disk.snapshots)[DOCS := db][CHAT := chatHistoryDb]
      ensures disk.chatDir == old(disk.chatDir)
    {
      this.disk := disk;
      var docs := GetOrCreateIndex(disk, DOCS);
      var chats := GetOrCreateIndex(disk, CHAT);
      db := docs;
      chatHistoryDb := chats;
    }

    /** `upload_document`. `pages` is what the PDF loader returns for the
        upload, or the exception it raises. A name without ".pdf" is refused
        with 400 before anything else; every failure inside the handler,
        including its own 400 for an empty document, comes out as 500. */
    method Upload(fileName: string, pages: Outcome<seq<string>>) returns (resp: Response)
      requires Valid()
      modifies this, disk
      ensures Valid()
      ensures chatHistoryDb == old(chatHistoryDb) && disk.chatDir == old(disk.chatDir)
      ensures !EndsWith(fileName, PDF) ==>
                resp == HttpError(400, ONLY_PDF)
                && db == old(db) && disk.snapshots == old(disk.snapshots)
      ensures EndsWith(fileName, PDF) && pages.Raised? ==>
                resp == HttpError(500, "Ocorreu um erro: " + pages.message)
                && db == old(db) && disk.snapshots == old(disk.snapshots)
      ensures EndsWith(fileName, PDF) && pages == Done([]) ==>
                resp == HttpError(500, "Ocorreu um erro: " + HttpErrorText(400, EMPTY_DOCUMENT))
                && db == old(db) && disk.snapshots == old(disk.snapshots)
      ensures EndsWith(fileName, PDF) && pages.Done? && pages.value != [] ==>
                resp == Ok(UPLOADED)
                && db == old(db) + PageRecords(fileName, pages.value)
                && disk.snapshots == old(disk.snapshots)[DOCS := db]
    {
      if !EndsWith(fileName, PDF) {
        return HttpError(400, ONLY_PDF);
      }
      // The body of the `try`: `raised` is the message of the exception
      // that leaves it, if any.
      var raised: Option<string> := None;
      match pages {
        case Raised(message) =>
          raised := Some(message);
        case Done(units) =>
          if units == [] {
            raised := Some(HttpErrorText(400, EMPTY_DOCUMENT));
          } else {
            var documents := PageRecords(fileName, units);
            DocIndexAppend(db, documents);
            db := db + documents;
            disk.SaveIndex(db, DOCS);
          }
      }
      match raised {
        case Some(message) => resp := HttpError(500, "Ocorreu um erro: " + message);
        case None => resp := Ok(UPLOADED);
      }
    }

    /** `query_document`. `docHits` and `historyHits` are the two searches'
        results; `generate` is the generation chain applied to the query,
        the context and the history; `logTime` and `indexTime` are the two
        readings of the clock, one for the log file and one for the index. */
    method Query(query: string, chatId: string, docHits: seq<Record>, historyHits: seq<Record>,
                 generate: (string, string, string) -> Outcome<string>,
                 logTime: string, indexTime: string)
      returns (resp: Response)
      requires Valid()
      requires DrawnFrom(db, docHits, DEFAULT_SEARCH_K)
      requires DrawnFrom(chatHistoryDb, historyHits, CHAT_HISTORY_SEARCH_K)
      modifies this, disk
      ensures Valid()
      ensures db == old(db)
      ensures DocIndex(docHits) && ChatIndex(historyHits)
      ensures
        (if |old(chatHistoryDb)| > 0 then HistoryOf(historyHits) else "") == "" <==> historyHits == []
      ensures
        var history := if |old(chatHistoryDb)| > 0 then HistoryOf(historyHits) else "";
        match generate(query, ContextOf(docHits), history)
        case Raised(message) =>
          && resp == HttpError(500, "Erro: " + message)
          && chatHistoryDb == old(chatHistoryDb)
          && disk.chatDir == old(disk.chatDir) && disk.snapshots == old(disk.snapshots)
        case Done(answer) =>
          && resp == Ok(answer)
          && disk.chatDir == old(disk.chatDir)[ChatFile(chatId) := old(disk.Log(chatId)) + [Turn(query, answer, logTime)]]
          && chatHistoryDb == old(chatHistoryDb) + [ChatTurnRecord(chatId, query, answer, indexTime)]
          && disk.snapshots == old(disk.snapshots)[CHAT := chatHistoryDb]
    {
      assert DocIndex(docHits) by {
        forall i | 0 <= i < |docHits| ensures DocRecord(docHits[i]) {
          assert docHits[i] in db;
        }
      }
      assert ChatIndex(historyHits) by {
        forall i | 0 <= i < |historyHits| ensures ChatRecord(historyHits[i]) {
          assert historyHits[i] in chatHistoryDb;
        }
      }
      ChatHistoryComplete(historyHits);
      var context := BuildContext(docHits);
      var history := "";
      if |chatHistoryDb| > 0 {
        history := BuildHistory(historyHits);
      }
      var response := generate(query, context, history);
      match response {
        case Raised(message) =>
          resp := HttpError(500, "Erro: " + message);
        case Done(answer) =>
          disk.SaveChatHistory(chatId, query, answer, logTime);
          var chatHistoryDoc := ChatTurnRecord(chatId, query, answer, indexTime);
          chatHistoryDb := chatHistoryDb + [chatHistoryDoc];
          disk.SaveIndex(chatHistoryDb, CHAT);
          resp := Ok(answer);
      }
    }

    /** `get_chat_history_endpoint`: the stored turns, ascending by
        timestamp. */
    method ChatHistory(chatId: string) returns (history: seq<Turn>)
      ensures TimestampSorted(history)
      ensures multiset(history) == multiset(disk.Log(chatId))
    {
      var stored := disk.GetChatHistory(chatId);
      history := SortByTimestamp(stored);
    }

    /** `clear_chat_history_endpoint`: the log file goes; the chat-history
        index is reloaded from its own snapshot and saved back, so no indexed
        turn is removed, in memory or on disk. */
    method ClearChatHistory(chatId: string) returns (resp: Response)
      requires Valid()
      modifies disk
      ensures Valid()
      ensures resp == Ok("Histórico do chat " + chatId + " limpo.")
      ensures disk.chatDir == old(disk.chatDir) - {ChatFile(chatId)}
      ensures disk.snapshots == old(disk.snapshots)
      ensures chatHistoryDb == old(chatHistoryDb) && db == old(db)
    {
      var _ := disk.ClearChatHistory(chatId);
      var newChatHistoryDb := GetOrCreateIndex(disk, CHAT);
      disk.SaveIndex(newChatHistoryDb, CHAT);
      resp := Ok("Histórico do chat " + chatId + " limpo.");
    }

    /** `list_all_document_names` over the results of the top-1000 search:
        every file name among them once, in increasing order. */
    method DocumentNames(hits: seq<Record>) returns (fileNames: seq<string>)
      requires Valid()
      requires DrawnFrom(db, hits, ENUMERATE_K)
      ensures DocIndex(hits)
      ensures StrictlySorted(fileNames)
      ensures forall x :: x in fileNames <==> exists i :: 0 <= i < |hits| && FileName(hits[i]) == x
    {
      assert DocIndex(hits) by {
        forall i | 0 <= i < |hits| ensures DocRecord(hits[i]) {
          assert hits[i] in db;
        }
      }
      fileNames := SortedFileNames(hits);
    }

    /** `delete_document` over the results of the top-1000 search for the
        name. Nothing matches: nothing changes. Some results match and some
        do not: `db` becomes the non-matching results, in rank order, and is
        saved. Every result matches: the fallback reloads the saved
        `my_docs` snapshot, which is `db` itself, so the file stays. */
    method DeleteDocument(fileName: string, hits: seq<Record>) returns (resp: Response)
      requires Valid()
      requires DrawnFrom(db, hits, ENUMERATE_K)
      modifies this, disk
      ensures Valid()
      ensures resp == Ok("Arquivo " + fileName + " deletado.")
      ensures chatHistoryDb == old(chatHistoryDb) && disk.chatDir == old(disk.chatDir)
      ensures DocIndex(hits)
      ensures Matching(hits, fileName) == [] ==>
                db == old(db) && disk.snapshots == old(disk.snapshots)
      ensures Matching(hits, fileName) != [] && Remaining(hits, fileName) != [] ==>
                db == Remaining(hits, fileName) && disk.snapshots == old(disk.snapshots)[DOCS := db]
      ensures Matching(hits, fileName) != [] && Remaining(hits, fileName) == [] ==>
                db == old(db) && disk.snapshots == old(disk.snapshots)
                && exists i :: 0 <= i < |db| && FileName(db[i]) == fileName
    {
      assert DocIndex(hits) by {
        forall i | 0 <= i < |hits| ensures DocRecord(hits[i]) {
          assert hits[i] in db;
        }
      }
      var documentsToDelete := Matching(hits, fileName);
      if documentsToDelete != [] {
        var remainingDocs := Remaining(hits, fileName);
        var newDb: Index;
        if remainingDocs != [] {
          newDb := remainingDocs;
        } else {
          newDb := GetOrCreateIndex(disk, DOCS);
          assert documentsToDelete[0] in hits;
          assert hits[0] in db;
        }
        disk.SaveIndex(newDb, DOCS);
        db := newDb;
      }
      resp := Ok("Arquivo " + fileName + " deletado.");
    }
  }
}
