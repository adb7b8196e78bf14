# A model of the RAG document question-answering service

The service takes uploaded PDF files, stores one passage per extracted unit in
a document vector index (`my_docs`), and answers questions. To answer, it
retrieves passages and earlier conversation turns, hands them to a generation
model, and records the new turn in two places: a per-conversation JSON log and
a second vector index (`chat_history`). Both indexes are pickled to disk after
every change.

This project models that orchestration in Dafny:

- `TextCleaning` (`clean_text_data`): NUL removal on page text.
- `Stores` (the local stores of `utils.py`): a `Disk` class. Its `snapshots`
  map goes from collection name to saved index. Its `chatDir` map goes from
  chat-log file name (`<chat_id>.json`) to the list of turns.
- `Documents`, `History`, `Prompting` (the pure parts of `main.py`): building
  upload records, sorting and de-duplicating file names, partitioning search
  results on deletion, sorting a log by timestamp, and building the context
  and history strings of a query.
- `Service` (the handlers of `main.py`): `get_or_create_faiss_index`, and an
  `App` class. `App` holds the process-wide `db` and `chat_history_db` and the
  disk. Its invariant `Valid()` says both indexes are well formed and equal to
  their saved snapshots.
- `Records` and `Strings` hold the shared types. `Strings` also defines
  Python's `str` ordering, `endswith` and `str(int)`.

A vector index is the ordered list of records it holds. Embeddings and
distances are not modelled. Every external service is an oracle whose output
is a parameter:

- A similarity search returns any list of at most `k` records of the searched
  index, in rank order (`DrawnFrom`).
- The PDF loader returns a list of text units, or raises.
- The generation chain is a function of (query, context, history) that returns
  an answer or raises.
- Each `datetime.now()` is a timestamp parameter. A query reads the clock
  twice, once for the log and once for the index record, so there are two.

Behaviours that the proofs make explicit:

- Deleting a file whose passages are all the search results does not delete
  it. The fallback `get_or_create_faiss_index("my_docs")` reloads the saved
  snapshot, which is the current index (`Service.App.DeleteDocument`).
- Clearing a chat history removes only the log file. The comment at
  main.py:227 speaks of recreating the index without this chat's turns, but
  the code reloads the saved snapshot and saves it back. So the chat-history
  index, in memory and on disk, keeps every indexed turn of every
  conversation (`Service.App.ClearChatHistory`).
- The 400 raised for an empty document is raised inside the `try`. The generic
  handler catches it and replies 500 with detail
  `Ocorreu um erro: 400: O documento está vazio. ...` (`Service.App.Upload`).
- A conversation id containing `.json` is not listed back as itself. The
  listing removes every `.json` occurrence, not just the suffix
  (`Stores.ChatFileListedBack`).
- Deleting a file rebuilds `my_docs` from the top-1000 search results alone.
  A passage of another file that the search does not return is lost with the
  deleted file: `db` becomes exactly `Remaining(hits, fileName)`
  (`Service.App.DeleteDocument`).

## Model

| member | source | states |
|---|---|---|
| `TextCleaning.StripNul` | utils.py:11 | the result contains no NUL and is shorter than the input by exactly the number of NULs in it |
| `TextCleaning.CleanTextData` | utils.py:8-12 | `None` comes back as `None`; a string comes back NUL-free and shorter by exactly its NUL count |
| `TextCleaning.StripNulAppend` | utils.py:11 | NUL removal distributes over concatenation, so the remaining characters keep their order |
| `TextCleaning.StripNulCounts` | utils.py:11 | every non-NUL character occurs as often in the output as in the input, and NUL never occurs |
| `TextCleaning.StripNulNoNul` | utils.py:11 | a string without NUL is returned unchanged |
| `TextCleaning.CleanTextIdempotent` | utils.py:10-12 | cleaning twice gives the same result as cleaning once |
| `TextCleaning.NulBetween` | test_faiss.py:54-57 | a NUL between two NUL-free strings is removed and nothing else is, as with the self-test's sample string |
| `Stores.DropJsonAppend` | utils.py:64 | `replace('.json', '')` on `c + ".json"` gives the same as on `c`: the trailing suffix never merges with what precedes it |
| `Stores.DropJsonNoMatch` | utils.py:64 | with no occurrence of ".json", the replacement leaves the string unchanged |
| `Stores.DropJsonShrinks` | utils.py:64 | with an occurrence of ".json", the replacement makes the string strictly shorter |
| `Stores.ChatFileListedBack` | utils.py:30 | the file name saved for `chat_id` is listed back as `chat_id` if and only if `chat_id` does not contain ".json" |
| `Stores.ChatIdsOf` | utils.py:59-66 | every listed name ending in ".json" yields its stripped name, and every yielded id comes from such a name; never more ids than names |
| `Stores.ChatIdsOfAppend` | utils.py:62-65 | the ids of two runs of names are the first run's ids followed by the second's, so (with `ChatIdsOfOne`) each `.json` name yields exactly one id, in listing order |
| `Stores.ChatIdsOfOne` | utils.py:63-64 | one name yields its stripped name if it ends in ".json", and nothing otherwise |
| `Stores.SavedChatListed` | utils.py:59-66 | a conversation saved in the chat directory whose id is free of ".json" and of `/` appears among the ids listed from that directory |
| `Stores.Disk.SaveIndex` | utils.py:14-18 | the named snapshot is replaced wholesale; nothing else changes |
| `Stores.Disk.LoadIndex` | utils.py:20-26 | gives the saved index, or `None` when that name was never saved |
| `Stores.SaveLoadRoundTrip` | utils.py:14-26 | a load after two saves of one name gives back the second index; no other snapshot and no chat file changes |
| `Stores.Disk.SaveChatHistory` | utils.py:28-48 | the log of `chat_id` becomes its old log (or `[]`) plus exactly one turn `{user, ai, timestamp}` at the end; other files and the snapshots are untouched |
| `Stores.Disk.GetChatHistory` | utils.py:50-57 | gives the stored log in insertion order, or `[]` when no file exists |
| `Stores.Disk.AllChatIds` | utils.py:59-66 | the forward loop over a directory listing yields exactly `ChatIdsOf(listing)`, so every `.json` file of the directory whose name holds no `/` contributes its id |
| `Stores.Disk.ClearChatHistory` | utils.py:68-74 | returns true iff the log file existed; afterwards it does not, and every other file and the snapshots are untouched |
| `Documents.PageRecords` | main.py:95-104 | one record per extracted unit, in order: `page_number` is position + 1, `file_name` is the upload's name, the content is the cleaned text (NUL-free), and every record is a well-formed passage |
| `Documents.SortedFileNames` | main.py:241 | strictly increasing in Python string order, and contains a name iff some result carries it |
| `Documents.Matching` | main.py:251 | holds exactly the results whose `file_name` equals the given name |
| `Documents.Remaining` | main.py:255 | holds exactly the results whose `file_name` differs from the given name, all well-formed passages |
| `Documents.PartitionSizes` | main.py:250-255 | the two lists split the results as multisets, so the remaining list is smaller than the search results by the number of matching results |
| `Documents.RemainingAppend` | main.py:255 | the filter distributes over concatenation, so survivors keep their rank order |
| `Documents.DeletedFileNotListed` | main.py:240-241 | any later listing of an index rebuilt from the remaining results does not name the deleted file |
| `History.ChatTurnRecord` | main.py:191-194 | the record a query indexes carries all four of `chat_id`, `user`, `ai`, `timestamp` |
| `History.SortByTimestamp` | main.py:208 | the result is a permutation of the log, sorted ascending by timestamp |
| `History.SortedPairwise` | main.py:208 | in a sorted log every earlier turn's timestamp is at most every later turn's |
| `History.SortKeepsSortedLog` | main.py:208 | a log already in timestamp order is returned unchanged |
| `Prompting.ContextOf` | main.py:134-136 | the context is empty iff there are no document results |
| `Prompting.ContextOfAppend` | main.py:134-136 | the context of two runs of results is the first's context followed by the second's |
| `Prompting.HistoryOf` | main.py:144-146 | the history is empty iff no result carries both `user` and `ai` |
| `Prompting.HistoryOfAppend` | main.py:144-146 | the history of two runs of results is the first's history followed by the second's |
| `Prompting.ChatRecordHasTurn` | main.py:145 | every well-formed chat-history record passes the `user`/`ai` filter |
| `Prompting.ChatHistoryComplete` | main.py:139-146 | on results of the chat-history index, the history is empty iff there are no results: no result is skipped |
| `Prompting.BuildContext` | main.py:134-136 | the `+=` loop computes `ContextOf(results)` |
| `Prompting.BuildHistory` | main.py:139-146 | the `+=` loop computes `HistoryOf(results)` |
| `Service.GetOrCreateIndex` | main.py:55-64 | an existing snapshot is returned unchanged; otherwise the result is empty (seed added, then deleted) and is saved |
| `Service.GetOrCreateTwice` | main.py:55-64 | a second call returns the same index as the first, which is the existing snapshot or `[]`, so repeated calls never grow it; the chat directory is untouched |
| `Service.App.constructor` | main.py:67-68 | start-up loads or creates both indexes and establishes `Valid()`; only the `my_docs` and `chat_history` snapshots may change, and only to the loaded-or-created indexes |
| `Service.App.Upload` | main.py:79-115 | a non-`.pdf` name gets 400 and changes nothing; a loader error or zero units gets 500 and changes nothing; N units append exactly `PageRecords(name, units)` to `db`, which is then saved |
| `Service.App.Query` | main.py:118-202 | the generator sees `ContextOf(docHits)` and, only when the chat index is non-empty, `HistoryOf(historyHits)`, which is empty iff the history search found nothing; on success one turn is appended to the log and one record to the chat index, which is saved; on failure 500 and nothing changes |
| `Service.App.ChatHistory` | main.py:205-211 | returns a permutation of the stored turns, sorted ascending by timestamp |
| `Service.App.ClearChatHistory` | main.py:222-234 | removes only the log file of `chat_id`; both indexes and both snapshots stay as they were |
| `Service.App.DocumentNames` | main.py:237-244 | the sorted, duplicate-free file names of the top-1000 results |
| `Service.App.DeleteDocument` | main.py:247-268 | no match: nothing changes; some but not all match: `db` becomes the non-matching results in order and is saved; all match: `db` and the snapshot are unchanged and still hold the file |

## Left out

- FastAPI routing, CORS, the API-key check and `uvicorn` start-up (main.py:30-52, 272-273) are framework glue. `list_all_chats` (main.py:213-219) is `get_all_chat_ids` behind a route; it is modelled by `Stores.Disk.AllChatIds`.
- config.py: environment loading and directory creation are I/O. `DEFAULT_SEARCH_K = 10` and `CHAT_HISTORY_SEARCH_K = 3` are plain constants.
- FAISS internals, embeddings and similarity scores. These are foreign code and floating point. A search is an oracle result constrained only by `DrawnFrom`, so which records rank first is not modelled.
- The generation chain and its prompt template (main.py:148-184) are an oracle function of (query, context, history). The chain's own second retrieval is inside that oracle, and so is whether it uses the supplied context.
- PDF parsing, the temporary file and its removal (main.py:84-90): the loader's output is a parameter. Each unit it yields becomes one record, whatever it is (a page or a chunk of one).
- Pickle and JSON serialisation, file paths and `os.path.join`. The snapshot directory is keyed by collection name, which stands for `<name>.pkl`. The chat directory is keyed by file name.
- I/O failures (a failed write, a corrupt file, a missing `timestamp` key in a hand-edited log) and failures of the embedding calls inside `add_documents` are not modelled. The only errors modelled are the loader's and the generator's.
- `print` and timing, and the concurrency of requests. In particular the unsynchronised `globals()['db']` swap (main.py:264) is a plain field assignment.
- The stub `get_document_names_from_faiss` (utils.py:76-79) has no behaviour.
- The UTF-8 encode/decode step of `clean_text_data` is the identity on the strings modelled: Dafny strings hold no lone surrogates.
- `History.SortByTimestamp`: the contract states a sorted permutation. It does not state the stability of Python's `sorted`, although the insertion it uses keeps equal timestamps in log order.
- A conversation id holding a path separator: `os.path.join` then names a file outside the chat directory (`../x`) or in a subdirectory (`a/b`), which raises `FileNotFoundError` when missing and so turns a generated answer into a 500. The model stores the log under its file name and does not list it (`Stores.Disk.IsListing`), but does not model the failed write.
