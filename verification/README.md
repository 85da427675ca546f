# mcp-hubspot core, modelled in Dafny

mcp-hubspot is an MCP server that reads HubSpot CRM data: companies, contacts,
engagements, conversation threads and tickets. It also keeps what it has read
in a rolling, day-sharded FAISS vector store for semantic search. This project
models the logic of that server in Dafny and proves properties of the model.

- **The vector store** (`FaissManager`). Each day has a shard: a flat L2 index
  plus a list of metadata records. Both dicts share one key set.
  - At startup the store scans the index files, keeps the newest `max_days`
    dates, deletes the rest, and makes sure today's shard exists.
  - Writes go to today's shard, which is then saved.
  - A search asks every non-empty shard for its local top `min(k, n)`, merges
    the answers, sorts them by distance and cuts them to `k`.
- **The glue around the store** (`utils.py`, `base_handler.py`). It wraps each
  item as a metadata envelope and ranks search hits.
- **The reshaping and decision logic of the API clients and handlers:**
  - ticket filter selection, the retry/backoff loop, thread-id extraction and
    sender classification;
  - email batching, the thread-cache decision, and sender/recipient extraction;
  - message truncation;
  - argument validation and defaults;
  - engagement content dispatch;
  - the duplicate-contact search;
  - the recursive datetime-to-string conversion.

**How things are modelled.**
- JSON-like data is the `Json.Value` datatype. A dict is an ordered list of
  fields, as Python dicts keep insertion order. A `datetime` is a
  `DateTime(iso)` value.
- FAISS is an index holding a sequence of vectors. Its nearest-neighbour
  search is an oracle passed as a parameter. Distances are `real`.
- The disk is a map from path to file contents, plus a set of paths whose
  writing or removal raises.
- Remote HubSpot calls, `json.dumps`, the sentence encoder, `glob`, the
  clock and `time.sleep` are all parameters.
- An exception is a `Failure` (or `None`) that callers propagate or swallow
  exactly where the source does.

Modules, one per source component:

| file | module | models |
|---|---|---|
| `wrappers.dfy` | `Wrappers` | `Option` / `Result` |
| `text.dfy` | `Text` | string order, slicing, `str(int)` and `int(str)` |
| `dates.dfy` | `Dates` | `strptime` / `strftime` with `"%Y-%m-%d"` |
| `json.dfy` | `Json` | values, dict lookup / update, `int()`, `float()`, `.get` |
| `seqs.dfy` | `Seqs` | filter-maps and a stable sort on string keys |
| `topk.dfy` | `TopK` | the `k` smallest of a multiset and the merge lemma |
| `faiss_store.dfy` | `FaissStore` | the shard maps, the disk, load / save / remove / add |
| `retention.dfy` | `Retention` | `_initialize_indexes` |
| `shard_search.dfy` | `ShardSearch` | `FaissManager.search` |
| `utils.dfy` | `Ingest` | `generate_embeddings`, `store_in_faiss`, `search_in_faiss` |
| `formatters.dfy` | `Formatters` | `convert_datetime_fields` |
| `error_handler.dfy` | `ErrorHandler` | the `handle_hubspot_errors` decorator's effect |
| `base_handler.dfy` | `BaseHandler` | the handlers' shared helpers |
| `ticket_client.dfy` | `TicketClient` | the ticket client |
| `ticket_handler.dfy` | `TicketHandler` | the ticket handler |
| `conversation_client.dfy` | `ConversationClient` | the conversation client |
| `conversation_handler.dfy` | `ConversationHandler` | the conversation handler |
| `company_client.dfy` | `CompanyClient` | the company client |
| `contact_client.dfy` | `ContactClient` | the contact client |

## Model

| member | source | states |
|---|---|---|
| FaissStore.AddVectors | src/mcp_server_hubspot/faiss_manager.py:215 | `index.add` succeeds iff every vector has the index's width, and then appends the batch in order, growing the count by its length |
| FaissStore.IndexPathRoundTrip | src/mcp_server_hubspot/faiss_manager.py:76-78 | the startup scan's `basename(p)[6:-6]` recovers exactly the key whose index path `p` is |
| FaissStore.BasenameOfJoin | src/mcp_server_hubspot/faiss_manager.py:76 | `basename(join(dir, name))` is `name` for a name without `/` |
| FaissStore.PathsDistinct | src/mcp_server_hubspot/faiss_manager.py:39-59 | different keys never share an index or metadata path, and no index path is a metadata path |
| FaissStore.EmptyStore | src/mcp_server_hubspot/faiss_manager.py:22-25 | the fresh store has no shards, so both dicts share their (empty) key set and every shard is aligned |
| FaissStore.SetShard | src/mcp_server_hubspot/faiss_manager.py:124-126 | setting a shard in both dicts keeps the shared key set; a new key goes last in dict order, an old one keeps its place |
| FaissStore.DropShard | src/mcp_server_hubspot/faiss_manager.py:168-169 | popping a key from both dicts removes exactly that key and keeps the shared key set |
| FaissStore.Join | src/mcp_server_hubspot/faiss_manager.py:48 | a joined path ends with the file name |
| FaissStore.Basename | src/mcp_server_hubspot/faiss_manager.py:76 | a basename holds no `/` and ends its path |
| FaissStore.CreateNewIndex | src/mcp_server_hubspot/faiss_manager.py:132-144 | the key then holds an empty 768-wide index and an empty list; every other shard is unchanged; the invariant and alignment are kept |
| FaissStore.ReadShard | src/mcp_server_hubspot/faiss_manager.py:113-122 | reading succeeds iff the index file holds an index and the metadata file is missing or holds a list of records; a missing metadata file reads as `[]` (other JSON is treated as unreadable, see Left out) |
| FaissStore.LoadIndex | src/mcp_server_hubspot/faiss_manager.py:104-130 | loading is all or nothing: on success both dicts get the shard read, on any failure the store is unchanged |
| FaissStore.WriteFile | src/mcp_server_hubspot/faiss_manager.py:189-195 | a write raises iff the path is locked, and otherwise replaces exactly that file |
| FaissStore.DumpRecords | src/mcp_server_hubspot/faiss_manager.py:194-195 | `json.dump` leaves a readable list iff every record is encodable |
| FaissStore.SaveIndex | src/mcp_server_hubspot/faiss_manager.py:176-199 | saving an unknown key does nothing; a save touches only the key's two files; a locked index path stops it before any write |
| FaissStore.SaveThenRead | src/mcp_server_hubspot/faiss_manager.py:104-199 | after saving a shard whose files are writable and whose records all encode, loading it gives back the same index and records |
| FaissStore.RemoveIndex | src/mcp_server_hubspot/faiss_manager.py:148-169 | the key leaves both dicts even when deleting its files failed; only its two files are touched; unlocked files are gone |
| FaissStore.RemoveFiles | src/mcp_server_hubspot/faiss_manager.py:157-165 | the removal step touches only the two paths and deletes both when neither is locked |
| FaissStore.RemoveIdempotent | src/mcp_server_hubspot/faiss_manager.py:148-169 | removing a key twice is removing it once, on the store and on the disk |
| FaissStore.DropShardIdempotent | src/mcp_server_hubspot/faiss_manager.py:148-165 | dropping a shard twice is dropping it once |
| FaissStore.RemoveFilesIdempotent | src/mcp_server_hubspot/faiss_manager.py:157-162 | removing the two files twice is removing them once |
| FaissStore.RemoveAbsent | src/mcp_server_hubspot/faiss_manager.py:168-169 | removing a key that is not in the store leaves the store as it was |
| FaissStore.SaveOthersKeepFiles | src/mcp_server_hubspot/faiss_manager.py:171-174 | saving other keys never touches a key's files or the locked set |
| FaissStore.SaveAllThenRead | src/mcp_server_hubspot/faiss_manager.py:171-199 | after `save_all_indexes`, every saveable shard reads back exactly as it is held in memory |
| FaissStore.AddDataEffect | src/mcp_server_hubspot/faiss_manager.py:201-221 | `add_data` succeeds iff every vector has today's width; then it changes today's shard only, appending vectors and records in order, and the key set gains at most today |
| FaissStore.AddDataKeepsAligned | src/mcp_server_hubspot/faiss_manager.py:214-218 | with one record per vector, the count of every shard still equals its number of records |
| FaissStore.AddDataFailure | src/mcp_server_hubspot/faiss_manager.py:210-215 | a failing add has still created today's empty shard if it was missing, and has changed nothing else, the disk included |
| FaissStore.AddDataSaves | src/mcp_server_hubspot/faiss_manager.py:220-221 | a successful add touches only today's two files and, when they are writable and the records encode, today's shard reads back as held |
| FaissStore.NoRuntimeEviction | src/mcp_server_hubspot/faiss_manager.py:208-212 | when the day rolls over, a store already holding `max_days` shards ends up with `max_days + 1`: nothing is evicted |
| FaissStore.LoadWithoutMetadataMisaligns | src/mcp_server_hubspot/faiss_manager.py:118-122 | a non-empty index loaded without its metadata file leaves the store misaligned, since nothing compares the two |
| Retention.Scan | src/mcp_server_hubspot/faiss_manager.py:74-83 | the scan yields at most one dated entry per listed path |
| Retention.ScanMembers | src/mcp_server_hubspot/faiss_manager.py:74-83 | an entry is scanned iff its key is `basename(p)[6:-6]` of a listed path and `strptime` accepts that key as its date |
| Retention.OlderIrreflexive | src/mcp_server_hubspot/faiss_manager.py:86 | no dated entry sorts before itself |
| Retention.OlderAsymmetric | src/mcp_server_hubspot/faiss_manager.py:86 | two dated entries never sort before each other both ways |
| Retention.OlderTotal | src/mcp_server_hubspot/faiss_manager.py:86 | the `(date, date_str)` tuple order is total |
| Retention.OlderTransitive | src/mcp_server_hubspot/faiss_manager.py:86 | the `(date, date_str)` tuple order is transitive |
| Retention.SortNewestFirst | src/mcp_server_hubspot/faiss_manager.py:86 | the sort is a permutation of the scanned entries |
| Retention.SortSorted | src/mcp_server_hubspot/faiss_manager.py:86 | the sort leaves the entries newest first |
| Retention.RetentionPartition | src/mcp_server_hubspot/faiss_manager.py:86-92 | the kept and removed entries together are the sorted scan, and `min(max_days, n)` entries are kept |
| Retention.RetentionNewest | src/mcp_server_hubspot/faiss_manager.py:86-92 | the kept entries are the newest: each is at least as new as every removed one |
| Retention.RemoveAll | src/mcp_server_hubspot/faiss_manager.py:92-93 | removing the old dates never changes the store's directory or retention bound |
| Retention.RemoveAllFrame | src/mcp_server_hubspot/faiss_manager.py:92-93 | the removal loop touches only the files of the keys it removes |
| Retention.RemoveAllRemoves | src/mcp_server_hubspot/faiss_manager.py:157-162 | every removed key whose files are writable has lost both of them |
| Retention.RemoveAllNeverAdds | src/mcp_server_hubspot/faiss_manager.py:92-93 | removal never creates or changes a file |
| Retention.RemoveAllReads | src/mcp_server_hubspot/faiss_manager.py:92-93 | after removal a shard reads either as before or not at all |
| Retention.LoadAll | src/mcp_server_hubspot/faiss_manager.py:96-97 | loading never writes to disk and keeps the shared key set |
| Retention.LoadAllMembers | src/mcp_server_hubspot/faiss_manager.py:96-130 | after the loading loop a key is present iff it was already, or it was loaded and its files read; a loaded key holds exactly what its files hold |
| Retention.LoadAllAligned | src/mcp_server_hubspot/faiss_manager.py:96-97 | shards that read aligned from disk stay aligned in memory |
| Retention.Initialize | src/mcp_server_hubspot/faiss_manager.py:65-102 | startup keeps the store's directory and retention bound |
| Retention.InitializeToday | src/mcp_server_hubspot/faiss_manager.py:99-102 | after startup today's key is in both dicts; if it was not kept or did not load, it holds an empty 768-wide index and an empty list |
| Retention.InitializeLoads | src/mcp_server_hubspot/faiss_manager.py:65-102 | after startup the shards in memory are today's and kept keys; a kept key not listed for removal is present iff its files read, and then holds what they hold |
| Retention.InitializeBound | src/mcp_server_hubspot/faiss_manager.py:89-102 | startup never holds more than `max_days + 1` shards |
| Retention.InitializeDisk | src/mcp_server_hubspot/faiss_manager.py:91-93 | startup deletes only the files of removed keys, and every removed key whose files are writable has lost both of them |
| Retention.UnparseableUntouched | src/mcp_server_hubspot/faiss_manager.py:79-83 | a name that does not parse as a date is neither loaded nor deleted |
| Retention.UnparseableNotKept | src/mcp_server_hubspot/faiss_manager.py:79-83 | a name that does not parse as a date is neither kept nor removed |
| Retention.InitializeAligned | src/mcp_server_hubspot/faiss_manager.py:65-102 | when every kept shard reads aligned from disk, the store after startup is aligned |
| Dates.ParseDate | src/mcp_server_hubspot/faiss_manager.py:80 | `strptime(s, "%Y-%m-%d")` on ASCII digits accepts only dates that exist |
| Dates.FormatDate | src/mcp_server_hubspot/faiss_manager.py:63 | `%Y-%m-%d` renders a valid date as ten characters with dashes at positions 4 and 7 |
| Dates.FormatParseRoundTrip | src/mcp_server_hubspot/faiss_manager.py:63-80 | the name `strftime` gives today's shard always parses back to today's date |
| Dates.FormatInjective | src/mcp_server_hubspot/faiss_manager.py:63 | different days get different shard names |
| ShardSearch.SqL2 | src/mcp_server_hubspot/faiss_manager.py:140 | `IndexFlatL2` distances are never negative |
| ShardSearch.PyIndex | src/mcp_server_hubspot/faiss_manager.py:252 | a list index in range reads the item; one past either end raises |
| ShardSearch.Collect | src/mcp_server_hubspot/faiss_manager.py:249-256 | one shard contributes at most one result per hit |
| ShardSearch.CollectExact | src/mcp_server_hubspot/faiss_manager.py:249-256 | with valid labels no hit is dropped, and the results carry the hits' distances |
| ShardSearch.SortByDistancePermutes | src/mcp_server_hubspot/faiss_manager.py:259 | the sort by distance is a permutation |
| ShardSearch.SortByDistanceSorted | src/mcp_server_hubspot/faiss_manager.py:259 | the sort leaves distances in non-decreasing order |
| ShardSearch.SearchShape | src/mcp_server_hubspot/faiss_manager.py:258-268 | the two returned lists are parallel, at most `k` long (empty for `k <= 0`), with non-decreasing distances |
| ShardSearch.SearchAllEmpty | src/mcp_server_hubspot/faiss_manager.py:241-243 | with every shard empty, the search returns `([], [])` without asking FAISS anything |
| ShardSearch.ShardContribution | src/mcp_server_hubspot/faiss_manager.py:246 | for an aligned store, asking a shard for `min(k, ntotal)` under an exact oracle yields that shard's `k` smallest distances |
| ShardSearch.GatherExact | src/mcp_server_hubspot/faiss_manager.py:241-256 | for an aligned store under an exact oracle the gather succeeds and yields, per shard, that shard's `k` smallest distances |
| ShardSearch.SortedTopIsSmallest | src/mcp_server_hubspot/faiss_manager.py:259-262 | the sorted results cut to `k` carry the `k` smallest gathered distances |
| ShardSearch.SearchIsGlobalTopK | src/mcp_server_hubspot/faiss_manager.py:235-268 | merge correctness: for an aligned store with each shard answered exactly, the returned distances are the `k` smallest over every vector of every shard |
| ShardSearch.MisalignedShardRaises | src/mcp_server_hubspot/faiss_manager.py:246-252 | a non-empty shard with an empty metadata list makes the search raise `IndexError` even under an exact oracle, so alignment is needed for the merge theorem |
| TopK.SmallestLength | src/mcp_server_hubspot/faiss_manager.py:246-262 | asking for the `k` smallest yields `min(k, n)` of them |
| TopK.AscendingPrefixIsSmallest | src/mcp_server_hubspot/faiss_manager.py:259-262 | the first `k` of a sorted list are the `k` smallest of its contents |
| TopK.SmallestWithin | src/mcp_server_hubspot/faiss_manager.py:246-262 | every value among the `k` smallest is taken from the input |
| TopK.MergeStep | src/mcp_server_hubspot/faiss_manager.py:246-262 | the `j` smallest of two parts are unchanged when one part is first cut to its own `k >= j` smallest |
| TopK.LocalThenGlobal | src/mcp_server_hubspot/faiss_manager.py:241-262 | the local top `k` of every part, then a global cut, is the global top `k` |
| Ingest.Texts | src/mcp_server_hubspot/utils.py:22 | one `json.dumps` text per item, in item order; it raises iff some item cannot be encoded |
| Ingest.GenerateEmbeddings | src/mcp_server_hubspot/utils.py:12-23 | the encoder is applied to exactly the per-item texts |
| Ingest.Envelope | src/mcp_server_hubspot/utils.py:58-63 | the record is a dict, and without extras it is exactly `{"type": data_type, "data": item}` |
| Ingest.EnvelopeLookup | src/mcp_server_hubspot/utils.py:58-63 | an extras key overrides `type` and `data`; otherwise they hold the data type and the item, and nothing else is present |
| Ingest.EnvelopeExtra | src/mcp_server_hubspot/utils.py:62-63 | each extra reads back as the value given for it |
| Ingest.Records | src/mcp_server_hubspot/utils.py:56-64 | exactly one envelope per item, in item order |
| Ingest.StoreInFaiss | src/mcp_server_hubspot/utils.py:41-71 | empty data, or an item that cannot be encoded, leaves the state as it was |
| Ingest.StoreInFaissKeepsInv | src/mcp_server_hubspot/utils.py:41-71 | whatever happens, including a swallowed exception, the two dicts keep one key set |
| Ingest.StoreInFaissEffect | src/mcp_server_hubspot/utils.py:45-68 | a successful store appends one envelope per item, in order, to today's records and the vectors to today's index, and leaves every other shard as it was |
| Ingest.StoreInFaissKeepsAligned | src/mcp_server_hubspot/utils.py:51-68 | with one vector per text, storing keeps every shard aligned |
| Ingest.Similarity | src/mcp_server_hubspot/utils.py:105 | `1 - d/2` is at most 1 for a distance that is not negative, and at least 0 only while `d <= 2` |
| Ingest.SimilarityNegativePastTwo | src/mcp_server_hubspot/utils.py:105 | the score leaves the unit interval once the squared distance exceeds 2 |
| Ingest.FormatResult | src/mcp_server_hubspot/utils.py:103-108 | a result has exactly the keys `rank`, `similarity_score`, `type`, `data`, in that order |
| Ingest.FormatResultLookup | src/mcp_server_hubspot/utils.py:103-108 | the rank is one-based; `type` defaults to `"unknown"` and `data` to `{}` |
| Ingest.FormatResults | src/mcp_server_hubspot/utils.py:101-108 | one formatted result per hit, in hit order |
| Ingest.RankResults | src/mcp_server_hubspot/utils.py:101-113 | a failing store search propagates; formatting fails iff some returned record is not a dict |
| Ingest.FormatResultsRanked | src/mcp_server_hubspot/utils.py:101-108 | ranks run `1..n`, and ascending distances give non-increasing similarity scores |
| Ingest.SearchInFaissRanks | src/mcp_server_hubspot/utils.py:90-110 | on success there is one result per hit, at most `limit`, ranked in order, with non-increasing scores and the store's distances |
| Ingest.SearchInFaissFails | src/mcp_server_hubspot/utils.py:90-113 | the search raises iff the store's search raises or one of its records is not a dict; the exception is not swallowed |
| Formatters.ConvertDatetimeFields | src/mcp_server_hubspot/core/formatters.py:8-27 | dicts stay dicts with the same keys, lists keep their length, a datetime becomes its ISO string, anything else is returned unchanged; the result is always encodable |
| Formatters.ConvertLookup | src/mcp_server_hubspot/core/formatters.py:17-18 | every key of a converted dict reads as the converted value of the original |
| Formatters.ConvertItemAt | src/mcp_server_hubspot/core/formatters.py:19-20 | a converted list holds, at each position, the converted item from that position |
| Formatters.ConvertFixesDumpable | src/mcp_server_hubspot/core/formatters.py:17-27 | a value with no datetime anywhere is left exactly as it was |
| Formatters.ConvertIdempotent | src/mcp_server_hubspot/core/formatters.py:17-27 | converting twice is converting once |
| Formatters.ConvertList | src/mcp_server_hubspot/core/formatters.py:17-27 | a converted list is encodable and keeps, position by position, each item's keys, each datetime as its ISO string, and each datetime-free item unchanged |
| ErrorHandler.ErrorText | src/mcp_server_hubspot/core/error_handler.py:26-31 | a caught exception becomes a JSON string, never a dict |
| ErrorHandler.Handled | src/mcp_server_hubspot/core/error_handler.py:22-31 | the decorated call returns the function's value, or the error text when it raised |
| BaseHandler.FirstMissing | src/mcp_server_hubspot/handlers/base_handler.py:105-107 | the first required key, in list order, that the arguments lack; none iff all are present |
| BaseHandler.ValidateRequiredArguments | src/mcp_server_hubspot/handlers/base_handler.py:92-107 | missing or empty arguments fail listing all keys; otherwise it succeeds iff every key is present, and else names the first missing key |
| BaseHandler.ValidateNeedsOnlyTruthyArgs | src/mcp_server_hubspot/handlers/base_handler.py:102-107 | with every key present, validation fails only on empty arguments |
| BaseHandler.GetArgumentWithDefault | src/mcp_server_hubspot/handlers/base_handler.py:109-128 | the default for missing or empty arguments or an absent key, else the value stored under the key |
| BaseHandler.IntArgument | src/mcp_server_hubspot/handlers/ticket_handler.py:69-75 | a missing or `None` argument is its default; any other value is `int(value)`, with its error |
| BaseHandler.FloatArgument | src/mcp_server_hubspot/handlers/ticket_handler.py:71-76 | a missing or `None` argument is its default; any other value is `float(value)`, with its error |
| BaseHandler.ExplicitNoneKept | src/mcp_server_hubspot/handlers/base_handler.py:128 | a key present with value `None` yields `None`, not the default |
| BaseHandler.CreateTextResponse | src/mcp_server_hubspot/handlers/base_handler.py:78-90 | a string passes through unchanged, anything else is `json.dumps`-ed (raising on a datetime); the response is always one text item |
| BaseHandler.StoreInFaissSafely | src/mcp_server_hubspot/handlers/base_handler.py:52-55 | falsy data returns before anything is stored |
| BaseHandler.StoreSafelyIsStore | src/mcp_server_hubspot/handlers/base_handler.py:52-76 | the guard and the swallowed call to the missing `save_today_index` add nothing: storing safely is storing, and the key-set invariant holds |
| BaseHandler.StoreSafelyAppends | src/mcp_server_hubspot/handlers/base_handler.py:62-68 | with items the encoder embeds at today's width, one envelope per item is appended, in order, to today's records |
| Json.PyInt | src/mcp_server_hubspot/handlers/conversation_handler.py:54 | `int(x)` keeps an int, parses a string iff it is ASCII decimal text, and raises on `None`, a list or a dict |
| Json.PyIntTruncates | src/mcp_server_hubspot/handlers/ticket_handler.py:74 | `int` of a float truncates toward zero |
| Json.PyIntOfText | src/mcp_server_hubspot/handlers/ticket_handler.py:74-76 | `int` and `float` of a number's decimal text give the number back |
| Json.Or | src/mcp_server_hubspot/clients/company_client.py:215 | `a or b` is `a` when truthy, else `b` |
| Json.Put | src/mcp_server_hubspot/handlers/conversation_handler.py:116-119 | `d[k] = v` keeps the keys (adding `k` last when new), makes `k` read `v` and leaves every other key as it was |
| Json.Iterate | src/mcp_server_hubspot/clients/company_client.py:206-211 | `for x in v` visits a list's items, a dict's keys or a string's characters, and raises on anything else |
| Json.IterateEmpty | src/mcp_server_hubspot/clients/ticket_client.py:325-338 | an iterable visits nothing iff it is falsy |
| Seqs.SortByPermutes | src/mcp_server_hubspot/clients/ticket_client.py:390 | sorting messages by `created_at` reorders them only |
| Seqs.SortBySorted | src/mcp_server_hubspot/clients/ticket_client.py:390 | the sorted messages ascend by `created_at` |
| Json.PyFloat | src/mcp_server_hubspot/handlers/ticket_handler.py:76 | `float(x)` converts numbers exactly, parses a whole-number string iff it is decimal, and raises on `None`, a list or a dict |
| Text.ParseIntRoundTrip | src/mcp_server_hubspot/clients/ticket_client.py:330 | the decimal text `str(i)` of an id parses back to `i` |
| Text.SliceStop | src/mcp_server_hubspot/faiss_manager.py:89-92 | where `s[:n]` stops, with a negative `n` counting from the end |
| Text.SliceDropEnds | src/mcp_server_hubspot/faiss_manager.py:78 | `s[a:-b]` is the middle of `s`, or empty when the ends cross |
| Text.LessTotal | src/mcp_server_hubspot/faiss_manager.py:86 | Python's string order is total |
| Text.LessIrreflexive | src/mcp_server_hubspot/faiss_manager.py:86 | no string sorts before itself |
| Text.LessAsymmetric | src/mcp_server_hubspot/faiss_manager.py:86 | two strings never sort before each other both ways |
| Text.LessTransitive | src/mcp_server_hubspot/faiss_manager.py:86 | Python's string order is transitive |
| TicketClient.CreateFilterGroupsForCriteria | src/mcp_server_hubspot/clients/ticket_client.py:65-82 | the groups are built iff the criteria is `"default"` or `"Closed"`; anything else raises the `ValueError` naming it |
| TicketClient.FilterGroupsMeaning | src/mcp_server_hubspot/clients/ticket_client.py:84-146 | two OR'd groups each way: `closedate GT t` and `hs_lastmodifieddate GT t` sharing one timestamp, or `hs_pipeline_stage EQ "4"` and `EQ "Closed"` |
| TicketClient.ExecuteTicketSearchWithRetry | src/mcp_server_hubspot/clients/ticket_client.py:183-253 | only 429 and 5xx are retried; at most `max_retries` sleeps, the n-th being `retry_delay * 2^(n-1)`; a page, any other error, or the failure after the last retry ends the loop; a failed call ends it with `SearchFailureMessage`: the error's message, the `'>='` TypeError text when it has no status, or `time.sleep`'s ValueError when a retry after a negative delay was due |
| TicketClient.SleepsDouble | src/mcp_server_hubspot/clients/ticket_client.py:248 | each sleep after the first is twice the one before |
| TicketClient.SleepSign | src/mcp_server_hubspot/clients/ticket_client.py:248-250 | a backoff is negative iff the initial delay is, which is when `time.sleep` raises |
| TicketClient.ThreadIds | src/mcp_server_hubspot/clients/ticket_client.py:325-338 | at most one id per association entry |
| TicketClient.ThreadIdsAppend | src/mcp_server_hubspot/clients/ticket_client.py:327-336 | extraction keeps input order |
| TicketClient.ThreadIdsMembers | src/mcp_server_hubspot/clients/ticket_client.py:327-336 | an id is extracted iff some entry carries it in `toObjectId`, or in `id` when `toObjectId` is absent; entries with neither are skipped |
| TicketClient.DetermineSenderType | src/mcp_server_hubspot/clients/ticket_client.py:441-458 | the sender type is one of `UNKNOWN`, `AGENT` and `CUSTOMER` |
| TicketClient.SenderTypeCases | src/mcp_server_hubspot/clients/ticket_client.py:450-458 | `UNKNOWN` iff there are no senders; `AGENT` iff the first sender is `FROM` with an `actorId` starting `0-1` or `0-2`; otherwise `CUSTOMER` |
| TicketClient.FormatMessage | src/mcp_server_hubspot/clients/ticket_client.py:421-439 | formatting a message raises exactly when classifying its sender does |
| TicketClient.FormatMessages | src/mcp_server_hubspot/clients/ticket_client.py:385-387 | one formatted message per message, in order |
| TicketClient.ActualMessages | src/mcp_server_hubspot/clients/ticket_client.py:376 | exactly the entries whose `type` is `"MESSAGE"` are kept |
| TicketClient.FetchThreadMessages | src/mcp_server_hubspot/clients/ticket_client.py:369-393 | a kept thread holds its `MESSAGE` entries formatted, as a permutation sorted ascending by `created_at`, under its own id |
| TicketClient.UnsortableThreadDropped | src/mcp_server_hubspot/clients/ticket_client.py:390-397 | a thread with two or more messages, one of which has a `created_at` that is not a string, raises in the sort and is dropped |
| TicketClient.KeptThreads | src/mcp_server_hubspot/clients/ticket_client.py:368-397 | at most one thread per id |
| TicketClient.KeptThreadsAppend | src/mcp_server_hubspot/clients/ticket_client.py:368-397 | threads keep id order |
| TicketClient.KeptThreadsOne | src/mcp_server_hubspot/clients/ticket_client.py:369-397 | a failing thread is left out; a succeeding one is kept as fetched |
| TicketClient.GetThreadMessages | src/mcp_server_hubspot/clients/ticket_client.py:356-399 | the loop returns the kept threads, and `total_messages` is the sum of their message counts |
| TicketClient.EmptyTicketThreadsResponse | src/mcp_server_hubspot/clients/ticket_client.py:340-354 | the empty response carries the ticket id exactly as passed and no threads, and is encodable iff that id is |
| TicketClient.GetConversationThreads | src/mcp_server_hubspot/clients/ticket_client.py:255-294 | the loop over the thread ids returns the reference answer `ConversationThreads`: the kept threads in id order with their summed message count |
| TicketClient.ConversationThreadsFields | src/mcp_server_hubspot/clients/ticket_client.py:255-294 | a failed association request or no thread ids gives the empty response; otherwise the id as passed, and `total_threads` and `total_messages` agree with the converted threads returned |
| TicketClient.ConversationThreadsDumpable | src/mcp_server_hubspot/clients/ticket_client.py:276-294 | the client's answer can be serialised exactly when the ticket id it carries can |
| TicketClient.GetTickets | src/mcp_server_hubspot/clients/ticket_client.py:33-63 | invalid criteria give the error text without any search; otherwise the result is the page of the call the retry loop stopped at, or, when that call failed, the error text of the exception that ended the loop |
| TicketHandler.TicketsArgumentsOf | src/mcp_server_hubspot/handlers/ticket_handler.py:67-76 | each argument is its default when missing or `None`, else its `int` / `float` conversion; the first conversion that raises escapes, in source order |
| TicketHandler.TicketsDefaults | src/mcp_server_hubspot/handlers/ticket_handler.py:68-76 | with no arguments, or none of the four keys, the defaults are `criteria="default"`, `limit=50`, `max_retries=3`, `retry_delay=1.0` |
| TicketHandler.InvalidCriteriaResponse | src/mcp_server_hubspot/handlers/ticket_handler.py:80-85 | the error envelope has exactly the keys `error`, `results`, `pagination`, `total`, names the criteria, and has empty results and total 0 |
| TicketHandler.StoredList | src/mcp_server_hubspot/handlers/ticket_handler.py:116-117 | a list is stored only when it is truthy; the same guard recurs for threads at lines 190-191 |
| TicketHandler.StoreTickets | src/mcp_server_hubspot/handlers/ticket_handler.py:102-131 | an error text instead of a dict, or no tickets, leaves the store unchanged |
| TicketHandler.StoreTicketsAppends | src/mcp_server_hubspot/handlers/ticket_handler.py:115-129 | each returned ticket is appended, in order, as an envelope holding the ticket, type `ticket`, and the request's criteria and limit |
| TicketHandler.TicketRecordFields | src/mcp_server_hubspot/handlers/ticket_handler.py:118-128 | the envelope of one ticket reads back as the ticket, its type, and the criteria and limit |
| TicketHandler.GetTickets | src/mcp_server_hubspot/handlers/ticket_handler.py:58-100 | bad conversions raise; invalid criteria give the error envelope without calling the client or storing; otherwise the client's page is stored and returned, and a failed search stores nothing and returns the client's error text for the exception that ended the retry loop |
| TicketHandler.ThreadsErrorResponse | src/mcp_server_hubspot/handlers/ticket_handler.py:155-161 | the error envelope has the keys `error`, `ticket_id`, `threads`, `total_threads`, `total_messages`, with the error, the ticket id and no threads |
| TicketHandler.StoreTicketThreads | src/mcp_server_hubspot/handlers/ticket_handler.py:178-206 | no threads leaves the store unchanged |
| TicketHandler.StoreTicketThreadsAppends | src/mcp_server_hubspot/handlers/ticket_handler.py:189-204 | each returned thread is appended, in order, as an envelope holding the thread, its type, the ticket id and the response's thread count (default 0) |
| TicketHandler.TicketThreadRecordFields | src/mcp_server_hubspot/handlers/ticket_handler.py:192-203 | the envelope of one thread reads back as the thread, its type, the ticket id and the thread count |
| TicketHandler.GetTicketConversationThreads | src/mcp_server_hubspot/handlers/ticket_handler.py:133-176 | missing arguments raise before the guarded block; otherwise the client is given the raw ticket id, its answer is stored (nothing when the association request failed), and the response is its text; an id that cannot be serialised gives the error envelope, which cannot be serialised either |
| ConversationClient.Listing | src/mcp_server_hubspot/clients/conversation_client.py:58-63 | a listing reads back its results and its `pagination.next.after` token |
| ConversationClient.EmptyEmailResponse | src/mcp_server_hubspot/clients/conversation_client.py:81-99 | no results, with the page's pagination token kept (`None` when the page has none) |
| ConversationClient.Batches | src/mcp_server_hubspot/clients/conversation_client.py:111-114 | every batch holds between 1 and 10 ids, and there are no batches iff there are no ids |
| ConversationClient.BatchesCover | src/mcp_server_hubspot/clients/conversation_client.py:111-114 | the batches cover every id once, in order, and only the last may be short |
| ConversationClient.FormatEmailFields | src/mcp_server_hubspot/clients/conversation_client.py:159-173 | a formatted email has exactly the nine keys in order, keeps id and subject, and its body is `hs_email_text` when truthy, else `hs_email_html` |
| ConversationClient.FormatEmailBatch | src/mcp_server_hubspot/clients/conversation_client.py:148-177 | one formatted email per result, in order |
| ConversationClient.BatchesEmailsSnoc | src/mcp_server_hubspot/clients/conversation_client.py:113-120 | each batch's emails follow those of the batches before it |
| ConversationClient.GetEmailDetails | src/mcp_server_hubspot/clients/conversation_client.py:101-125 | it succeeds iff no batch raises anything but `ApiException`; then the result is the converted emails of the batches in order, a batch raising `ApiException` contributing none; otherwise the error is the one of the first batch that raised, every earlier batch having returned or raised `ApiException` |
| ConversationClient.GetRecentEmails | src/mcp_server_hubspot/clients/conversation_client.py:34-63 | a failing page request gives the error text; no ids gives the empty response with the page's token; otherwise the result is a dict iff no batch raises anything but `ApiException`, and then holds the converted emails and the page's token, else it is the error text of the first batch that raised |
| ConversationClient.GetThreadsData | src/mcp_server_hubspot/clients/conversation_client.py:230-259 | the cache is used iff there is no refresh, no `after` and cached results; otherwise the fetched page is used, and a failed fetch raises |
| ConversationClient.CacheReplacedOnlyOnFirstPage | src/mcp_server_hubspot/clients/conversation_client.py:255-257 | the cache changes only when a first page is fetched, and then becomes that page |
| ConversationClient.CacheRoundTrip | src/mcp_server_hubspot/clients/conversation_client.py:246-257 | a fetched first page with results is what the next first-page call without refresh reads back, without asking the API again |
| ConversationClient.EmptyThreadsResponse | src/mcp_server_hubspot/clients/conversation_client.py:285-299 | no results, with the data's `paging.next.after` kept |
| ConversationClient.ExtractSenderInfo | src/mcp_server_hubspot/clients/conversation_client.py:424-435 | the sender info is `{}` iff there are no senders |
| ConversationClient.SenderEmail | src/mcp_server_hubspot/clients/conversation_client.py:425-434 | the first sender's `actor_id` is kept, and its `email` is the identifier's value for `HS_EMAIL_ADDRESS`, else `""` |
| ConversationClient.RecipientsInfo | src/mcp_server_hubspot/clients/conversation_client.py:446-453 | at most one entry per recipient |
| ConversationClient.RecipientsMembers | src/mcp_server_hubspot/clients/conversation_client.py:447-452 | exactly the recipients with an `HS_EMAIL_ADDRESS` identifier appear |
| ConversationClient.RecipientsAppend | src/mcp_server_hubspot/clients/conversation_client.py:447-452 | filtering keeps recipient order |
| ConversationClient.FormatMessages | src/mcp_server_hubspot/clients/conversation_client.py:382-384 | one formatted message per message, in order |
| ConversationClient.FormatThreadId | src/mcp_server_hubspot/clients/conversation_client.py:369 | a formatted thread keeps the thread's id |
| ConversationClient.FormatThreadFlags | src/mcp_server_hubspot/clients/conversation_client.py:374-375 | `spam` and `archived` default to `False` |
| ConversationClient.FormatThreadMessages | src/mcp_server_hubspot/clients/conversation_client.py:378-386 | a formatted thread holds one formatted message per given message, in order |
| ConversationClient.ThreadEntry | src/mcp_server_hubspot/clients/conversation_client.py:312-331 | one listed thread contributes at most one formatted thread |
| ConversationClient.GetThreadMessages | src/mcp_server_hubspot/clients/conversation_client.py:312-333 | at most one formatted thread per listed thread |
| ConversationClient.GetThreadMessagesMembers | src/mcp_server_hubspot/clients/conversation_client.py:312-331 | a thread is returned iff a listed thread has a truthy id whose fetch succeeded, formatted with its `MESSAGE` entries only |
| ConversationClient.GetThreadMessagesAppend | src/mcp_server_hubspot/clients/conversation_client.py:312-333 | threads keep listing order, and a failing thread drops only itself |
| ConversationClient.GetRecentThreads | src/mcp_server_hubspot/clients/conversation_client.py:192-228 | a failed fetch gives the error text and keeps the cache; no listed threads gives the empty response; otherwise the converted threads with the data's token; the cache is the one the data step left |
| ConversationHandler.LimitArgument | src/mcp_server_hubspot/handlers/conversation_handler.py:49-54 | a missing or `None` limit is 10; any other value is `int(limit)`, with its error |
| ConversationHandler.LimitFromText | src/mcp_server_hubspot/handlers/conversation_handler.py:54 | a limit given as a number's decimal text reads back as that number |
| ConversationHandler.StoreConversationsInFaiss | src/mcp_server_hubspot/handlers/conversation_handler.py:69-102 | a response whose `results` list is empty or missing leaves the store as it was |
| ConversationHandler.ConversationRecords | src/mcp_server_hubspot/handlers/conversation_handler.py:87-100 | one envelope per thread |
| ConversationHandler.ConversationRecordsAt | src/mcp_server_hubspot/handlers/conversation_handler.py:87-100 | the `k`-th envelope is that of the `k`-th thread, numbered `start + k` |
| ConversationHandler.StoreThreadsKeepsInv | src/mcp_server_hubspot/handlers/conversation_handler.py:87-100 | storing the threads one by one keeps the store's shard/metadata invariant |
| ConversationHandler.StoreThreadsAppends | src/mcp_server_hubspot/handlers/conversation_handler.py:87-100 | with encodable dict threads, today's metadata gains exactly one envelope per thread, in order, and other shards are untouched |
| ConversationHandler.StoreThreadStep | src/mcp_server_hubspot/handlers/conversation_handler.py:87-100 | one thread's store call appends its envelope alone to today's metadata |
| ConversationHandler.ConversationRecordFields | src/mcp_server_hubspot/handlers/conversation_handler.py:89-99 | an envelope holds the whole thread under `data`, the type `conversation_thread`, and the thread's id or `unknown_i` under `thread_id` |
| ConversationHandler.TruncateText | src/mcp_server_hubspot/handlers/conversation_handler.py:116-119 | a falsy value becomes `""`; a string or list keeps a prefix of at most 200 and is unchanged when already that short; anything else raises |
| ConversationHandler.TruncateTextIdempotent | src/mcp_server_hubspot/handlers/conversation_handler.py:116-119 | truncating twice is truncating once |
| ConversationHandler.TruncateMessage | src/mcp_server_hubspot/handlers/conversation_handler.py:115-119 | a message keeps its keys, and a non-dict message is unchanged |
| ConversationHandler.TruncateMessageFields | src/mcp_server_hubspot/handlers/conversation_handler.py:115-119 | `text` and `rich_text`, when present, become their truncations; every other field is unchanged |
| ConversationHandler.TruncateMessageIdempotent | src/mcp_server_hubspot/handlers/conversation_handler.py:115-119 | truncating a message twice is truncating it once |
| ConversationHandler.TruncateThread | src/mcp_server_hubspot/handlers/conversation_handler.py:114-119 | a non-dict thread raises; a truncated thread keeps its keys and its number of messages |
| ConversationHandler.TruncateThreadMessages | src/mcp_server_hubspot/handlers/conversation_handler.py:114-119 | the `i`-th message of the truncated thread is the truncation of the `i`-th original message |
| ConversationHandler.TruncateConversationMessages | src/mcp_server_hubspot/handlers/conversation_handler.py:104-121 | a non-dict response raises; a truncated response keeps its keys |
| ConversationHandler.TruncationKeepsCounts | src/mcp_server_hubspot/handlers/conversation_handler.py:104-121 | truncation keeps the number of threads and, thread by thread, their truncations and message counts |
| ConversationHandler.TruncatedMessageTexts | src/mcp_server_hubspot/handlers/conversation_handler.py:113-121 | in the truncated response every message keeps its place, and its `text` and `rich_text` strings become prefixes of the originals of at most 200 characters, whole when they already fit |
| ConversationHandler.GetRecentConversations | src/mcp_server_hubspot/handlers/conversation_handler.py:39-67 | a limit that `int` rejects ends the tool with that error and the store and cache unchanged; otherwise the store receives the client's threads as returned (the corrected behaviour of the Findings row; `AliasedRecord` gives the records as written, which hold the truncated threads), the cache is the one the client hands back, and the response is the text of the truncated results, or the truncation's error |
| ConversationHandler.StoredBeforeTruncation | src/mcp_server_hubspot/handlers/conversation_handler.py:58-64 | with encodable dict threads, the store gains one envelope per returned thread holding the thread in full, before the response is truncated |
| ConversationHandler.AliasedRecord | src/mcp_server_hubspot/handlers/conversation_handler.py:113-119 | as written, a stored envelope sharing its thread dict with the response ends up holding the truncated thread |
| ConversationHandler.AliasedRecordHoldsTruncation | src/mcp_server_hubspot/handlers/conversation_handler.py:113-119 | the envelope stored for any truncatable thread holds its truncation once the response is built |
| ConversationHandler.AliasingLosesStoredText | src/mcp_server_hubspot/handlers/conversation_handler.py:113-119 | a thread with a 201-character message is stored in full, but its in-memory envelope no longer holds it after truncation |
| CompanyClient.CreateCompanySearchRequest | src/mcp_server_hubspot/clients/company_client.py:49-65 | the search sorts by `lastmodifieddate` descending, keeps the limit and asks for the six company properties |
| CompanyClient.GetRecent | src/mcp_server_hubspot/clients/company_client.py:30-47 | always a string: the error text of a failed search, or the JSON text of a list with one encodable entry per company found, in order, each dict keeping its keys and each datetime-free company unchanged |
| CompanyClient.ExtractEngagementIds | src/mcp_server_hubspot/clients/company_client.py:100-113 | one id per association, in order; none when the response has no `results` |
| CompanyClient.FormatEmailParticipant | src/mcp_server_hubspot/clients/company_client.py:218-232 | a dict participant gives its four name fields, `""` when absent; anything else raises |
| CompanyClient.ParticipantDefaults | src/mcp_server_hubspot/clients/company_client.py:227-232 | each participant field reads back as the input's value or `""` |
| CompanyClient.FormatParticipants | src/mcp_server_hubspot/clients/company_client.py:206-211 | one formatted participant per recipient, in order; the first failure escapes, and a non-iterable raises |
| CompanyClient.ParticipantsOneToOne | src/mcp_server_hubspot/clients/company_client.py:206-211 | a recipient list maps one to one onto formatted participants |
| CompanyClient.EmailPartsOf | src/mcp_server_hubspot/clients/company_client.py:203-214 | only a dict metadata yields the raising parts; `to` is the formatted recipient list |
| CompanyClient.FormatEmailContent | src/mcp_server_hubspot/clients/company_client.py:194-216 | an email content exists iff its parts do, and then holds exactly the seven email keys in order |
| CompanyClient.EmailContentFields | src/mcp_server_hubspot/clients/company_client.py:203-216 | `to` holds one participant per recipient, `body` is the text when truthy else the HTML, `subject` defaults to `""` |
| CompanyClient.FormatEngagementContent | src/mcp_server_hubspot/clients/company_client.py:171-192 | a note's body, an email's content, a task/meeting/call pick, `{}` for any other type; a non-dict metadata raises for a known type |
| CompanyClient.PickedContentField | src/mcp_server_hubspot/clients/company_client.py:234-283 | a task, meeting or call content holds exactly its type's keys, each the metadata's value or the default |
| CompanyClient.FormatEngagement | src/mcp_server_hubspot/clients/company_client.py:139-169 | a non-dict response raises; otherwise the renamed engagement fields, the associations, then the content when present |
| CompanyClient.FormatEngagementContentKey | src/mcp_server_hubspot/clients/company_client.py:163-167 | `content` is present iff the engagement type is truthy, and then holds that type's content |
| CompanyClient.FormatEngagementField | src/mcp_server_hubspot/clients/company_client.py:151-158 | each copied engagement field reads back as the engagement's own value, `None` when absent |
| CompanyClient.EngagementDetail | src/mcp_server_hubspot/clients/company_client.py:126-135 | one engagement yields a detail iff its fetch and formatting both succeed |
| CompanyClient.EngagementDetailsMembers | src/mcp_server_hubspot/clients/company_client.py:115-137 | a detail is listed iff it is the formatting of some id's successful fetch |
| CompanyClient.EngagementDetailsAppend | src/mcp_server_hubspot/clients/company_client.py:124-137 | the details keep id order; a failure drops only its own engagement |
| CompanyClient.EngagementDetailsCount | src/mcp_server_hubspot/clients/company_client.py:124-137 | at most one detail per id, exactly one each when nothing fails |
| CompanyClient.GetActivity | src/mcp_server_hubspot/clients/company_client.py:67-82 | always a string: the error text of a failed association request, or the JSON text of an encodable list with one entry per engagement detail (at most one per association), each keeping its keys |
| ContactClient.CreateContactSearchRequest | src/mcp_server_hubspot/clients/contact_client.py:49-66 | the search sorts by `lastmodifieddate` descending, keeps the limit and asks for the seven contact properties |
| ContactClient.GetRecent | src/mcp_server_hubspot/clients/contact_client.py:30-47 | always a string: the error text of a failed search, or the JSON text of a list with one encodable entry per contact found, in order, each dict keeping its keys and each datetime-free contact unchanged |
| ContactClient.DuplicateFilterGroup | src/mcp_server_hubspot/clients/contact_client.py:116-137 | first and last name equality conditions, plus company equality exactly when the company is truthy |
| ContactClient.DuplicateFilterMeaning | src/mcp_server_hubspot/clients/contact_client.py:116-137 | a contact matches the group iff it has the same first and last name, and the same company when one is given |
| ContactClient.FindExistingContact | src/mcp_server_hubspot/clients/contact_client.py:139-150 | `None` iff the reported total is not positive; otherwise the first result, raising when the page is empty (whose error text is `list index out of range`, the `str` of the `IndexError`); a failing search raises |
| ContactClient.FoundIsDuplicate | src/mcp_server_hubspot/clients/contact_client.py:100-150 | against a search that honours its filter, a contact found is a true duplicate |
| ContactClient.AlreadyExists | src/mcp_server_hubspot/clients/contact_client.py:86-87 | the answer flags `already_exists` and carries the existing contact |
| ContactClient.CreateContact | src/mcp_server_hubspot/clients/contact_client.py:68-98 | with both names given, a truthy duplicate is returned flagged and nothing is created; otherwise the created contact, or the error text of either call |

## Left out

- FAISS itself (`IndexFlatL2`, `read_index`, `write_index`): an index is a dimension and a sequence of vectors. The nearest-neighbour search is an exact-k-NN oracle passed in, and float distances are `real`.
- The on-disk formats: a file holds the index or the metadata list as a value. A metadata list holding a datetime is written truncated and cannot be read back.
- The sentence encoder, `json.dumps` text, `glob`, `datetime.now`, `time.sleep` and every HubSpot HTTP or SDK call: these are parameters. The retry loop returns the sleeps it would make rather than sleeping.
- The storage directory's creation in `FaissManager.__init__` (`faiss_manager.py:33-37`): the directory is taken to exist.
- The hard-coded 768 of `_create_new_index` is kept as written. `server.py` builds a 384-wide encoder and passes `embedding_dimension`, which `FaissManager.__init__` does not accept. `server.py` is not part of this model, so the resulting add failure is reachable only through the encoder parameter (`FaissStore.AddDataFailure`).
- The `tzlocal` branch of `convert_datetime_fields` (`formatters.py:23-26`): it reads the wall-clock time zone.
- API values of the wrong JSON type (a list where a dict is expected, say) are read as absent. Python would raise `AttributeError` or `TypeError`.
- ConversationHandler.TruncateMessage: a message that is not a dict is left unchanged. In Python, the `in` test raises on a message that is not iterable, and indexing raises on a string or list message that contains `text`.
- Json.PyFloat: parses a string only when it is whole-number decimal text. Fractional and exponent forms, `inf` and `nan` are not modelled and count as a `ValueError`.
- Json.PyInt: surrounding whitespace, `_` digit separators and non-ASCII decimal digits (`int('٥') == 5`), which `int()` accepts, are not modelled and count as a `ValueError`. Text.ParseInt, which it uses, reads ASCII digits only.
- Dates.ParseDate: only ASCII digits are read. The `\d` of `_strptime`'s `%Y` and `%d` patterns also matches other Unicode decimal digits, so `strptime` dates a name such as `index_٢٠٢٤-01-05.faiss`, while the model treats it as unparseable.
- Retention.UnparseableUntouched: "does not parse" is relative to `Dates.ParseDate`. A shard name written with non-ASCII decimal digits is left alone in the model, but the program would date it and then keep and load it, or delete it.
- The `isinstance(results, str)` branch of `get_ticket_conversation_threads` (`ticket_handler.py:153-161`) is left out. `get_conversation_threads` catches every exception itself (`ticket_client.py:292-294`), so its error decorator never returns a string and the branch is unreachable.
- A thread id is `str(toObjectId)` (or `str(id)`). Only `None`, booleans, integers and strings have a fixed rendering; other values render as a fixed tag.
- FaissStore.ReadShard: a metadata file holding valid JSON that is not a list (a dict, a number) is treated as unreadable, so the load fails and the key stays absent. Python's `json.load` would accept it and `_load_index` would store it. The store's metadata is a list of records throughout the model, and the program only ever writes lists.
- TicketClient.UnsortableThreadDropped: any `created_at` that is not a string makes the message sort raise. Python sorts keys that are all numbers, or all lists, without raising; only mixed or incomparable keys raise. The API sends text.
- Seqs.SortBySorted: states that the result ascends and is a permutation of the input, not that equal keys keep their order (the stability of `list.sort`).
- TopK.SmallestWithin: states that each of the `k` smallest is a member of the input, not that they form a sub-multiset. The sub-multiset fact is used only through `TopK.SmallestLength` and the merge lemmas.
- `core/storage.py`: the thread cache is a value passed in and handed back. Only the decision of when it is read and replaced is modelled.
- Thin wiring: `server.py` (tool registration and routing), `__init__.py`, `hubspot_client.py` (delegation and token lookup) and `search_handler.py` (argument pass-through) are not part of this model.
- The create flows of `company_handler.py` and `contact_handler.py`: the duplicate filter they repeat is modelled once, in `ContactClient`.
- The SDK request objects (`PublicObjectSearchRequest` and friends) are records holding just the fields the code sets.
- Logging: every `logger` call is dropped.

## Findings

| source | as written | input that shows it | evidently intended | confidence | as-written member | corrected member |
|---|---|---|---|---|---|---|
| src/mcp_server_hubspot/handlers/conversation_handler.py:113-119 | `results.copy()` is shallow, so truncation edits the same thread dicts that `store_in_faiss` has just put, as `data`, into today's in-memory metadata records | a thread with one message whose `text` is 201 characters long | the stored record keeps the thread's full text, as the comment at line 63 says, and only the response is truncated | not executed | ConversationHandler.AliasingLosesStoredText | ConversationHandler.StoredBeforeTruncation |
