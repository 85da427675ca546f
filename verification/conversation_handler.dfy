/**
 * The `get_recent_conversations` tool: argument defaults, one store call
 * per thread, and the 200-character truncation of message texts in the
 * response.
 */
module ConversationHandler {
  import opened Wrappers
  import opened Json
  import Text
  import Seqs
  import opened FaissStore
  import Ingest
  import BaseHandler
  import ConversationClient

  // -------------------------------------------------------------- arguments

  const DefaultLimit: int := 10

  /** `limit`: 10 when missing or `None`, else `int(limit)`, which may raise. */
  function LimitArgument(args: Value): (r: Result<int, string>)
    ensures !Truthy(args) || !Has(args, "limit") || Get(args, "limit") == Some(Null) ==> r == Success(DefaultLimit)
    ensures Truthy(args) && Has(args, "limit") && Get(args, "limit") != Some(Null) ==> r == PyInt(Get(args, "limit").value)
  {
    BaseHandler.IntArgument(args, "limit", DefaultLimit)
  }

  /** A limit given as the decimal text of a number reads back as that number. */
  lemma LimitFromText(args: Value, n: int)
    requires Truthy(args) && Get(args, "limit") == Some(Str(Text.IntToString(n)))
    ensures LimitArgument(args) == Success(n)
  {
    PyIntOfText(n);
  }

  // ---------------------------------------------------------------- storing

  /** The extras of the `i`-th thread: its id (default `unknown_i`), the limit and the page token. */
  function ThreadExtras(thread: Value, i: nat, limit: int, after: Value): Fields {
    Zip(ThreadExtraKeys, [GetOr(thread, "id", Str("unknown_" + Text.NatToString(i))), Int(limit), after])
  }

  const ThreadExtraKeys: seq<string> := ["thread_id", "limit", "after"]

  lemma ThreadExtraKeysDistinct()
    ensures Distinct(ThreadExtraKeys) && "type" !in ThreadExtraKeys && "data" !in ThreadExtraKeys
  {
  }

  /** The extras hold their three keys once each. */
  lemma ThreadExtrasKeys(thread: Value, i: nat, limit: int, after: Value)
    ensures DistinctKeys(ThreadExtras(thread, i, limit, after))
    ensures Keys(ThreadExtras(thread, i, limit, after)) == ThreadExtraKeys
  {
    ThreadExtraKeysDistinct();
    ZipKeys(ThreadExtraKeys, [GetOr(thread, "id", Str("unknown_" + Text.NatToString(i))), Int(limit), after]);
  }

  /**
   * One `store_in_faiss_safely` call per thread, each on the single-item
   * list `[thread]`, numbering from `start`. A thread that is not a dict
   * has no `get`: the `AttributeError` ends the loop and is swallowed.
   */
  function StoreThreads(s: State, today: string, threads: seq<Value>, start: nat, limit: int, after: Value,
                        dumps: Ingest.Dumps, encode: Ingest.Encoder): (r: State)
    decreases |threads|
  {
    if |threads| == 0 || !threads[0].Obj? then s
    else
      var s' := BaseHandler.StoreInFaissSafely(s, today, [threads[0]], "conversation_thread",
                                               ThreadExtras(threads[0], start, limit, after), dumps, encode);
      StoreThreads(s', today, threads[1..], start + 1, limit, after, dumps, encode)
  }

  /** `_store_conversations_in_faiss`: store every thread of a truthy `results` list. */
  function StoreConversationsInFaiss(s: State, today: string, results: Value, limit: int, after: Value,
                                     dumps: Ingest.Dumps, encode: Ingest.Encoder): (r: State)
    ensures !Truthy(GetOr(results, "results", Arr([]))) ==> r == s
  {
    var data := GetOr(results, "results", Arr([]));
    if !Truthy(data) then s else StoreThreads(s, today, ListOf(data), 0, limit, after, dumps, encode)
  }

  /** The envelope the `i`-th thread is stored as. */
  function ConversationRecord(thread: Value, i: nat, limit: int, after: Value): Value {
    Ingest.Envelope(thread, "conversation_thread", ThreadExtras(thread, i, limit, after))
  }

  /** The envelopes the threads are stored as, in order, numbering from `start`. */
  function ConversationRecords(threads: seq<Value>, start: nat, limit: int, after: Value): (rs: seq<Value>)
    ensures |rs| == |threads|
  {
    Seqs.MapFrom(threads, start, RecordOfThread(limit, after))
  }

  /** `ConversationRecord` as a function of the thread and its number. */
  function RecordOfThread(limit: int, after: Value): (Value, nat) -> Value {
    (t: Value, i: nat) => ConversationRecord(t, i, limit, after)
  }

  /** The `k`-th stored envelope is that of the `k`-th thread, numbered `start + k`. */
  lemma ConversationRecordsAt(threads: seq<Value>, start: nat, limit: int, after: Value, k: nat)
    requires k < |threads|
    ensures ConversationRecords(threads, start, limit, after)[k] == RecordOfThread(limit, after)(threads[k], start + k)
  {
    Seqs.MapFromAt(threads, start, RecordOfThread(limit, after), k);
  }

  /** Storing threads one by one keeps the store's key-set invariant. */
  lemma {:induction false} StoreThreadsKeepsInv(s: State, today: string, threads: seq<Value>, start: nat, limit: int,
                                                after: Value, dumps: Ingest.Dumps, encode: Ingest.Encoder)
    requires Inv(s.store)
    ensures Inv(StoreThreads(s, today, threads, start, limit, after, dumps, encode).store)
    decreases |threads|
  {
    if |threads| > 0 {
      var s' := BaseHandler.StoreInFaissSafely(s, today, [threads[0]], "conversation_thread",
                                               ThreadExtras(threads[0], start, limit, after), dumps, encode);
      BaseHandler.StoreSafelyIsStore(s, today, [threads[0]], "conversation_thread",
                                     ThreadExtras(threads[0], start, limit, after), dumps, encode);
      StoreThreadsKeepsInv(s', today, threads[1..], start + 1, limit, after, dumps, encode);
    }
  }

  /** Every thread is a dict. */
  predicate AllDicts(threads: seq<Value>) {
    forall i :: 0 <= i < |threads| ==> threads[i].Obj?
  }

  /** The threads after the first are dicts that can be dumped too. */
  lemma AllDictsTail(threads: seq<Value>)
    requires |threads| > 0 && AllDumpable(threads) && AllDicts(threads)
    ensures Dumpable(threads[0]) && threads[0].Obj?
    ensures AllDumpable(threads[1..]) && AllDicts(threads[1..])
  {
    forall i | 0 <= i < |threads[1..]| ensures Dumpable(threads[1..][i]) && threads[1..][i].Obj? {
      assert threads[1..][i] == threads[i + 1];
    }
  }

  /** The envelopes of the threads are the first thread's, then those of the rest numbered on. */
  lemma ConversationRecordsCons(threads: seq<Value>, start: nat, limit: int, after: Value)
    requires |threads| > 0
    ensures ConversationRecords(threads, start, limit, after)
      == [ConversationRecord(threads[0], start, limit, after)] + ConversationRecords(threads[1..], start + 1, limit, after)
  {
    Seqs.MapFromCons(threads, start, RecordOfThread(limit, after));
  }

  /**
   * When every thread can be encoded at today's width, storing appends one
   * envelope per thread, in order, to today's metadata, each holding the
   * thread exactly as given, and leaves the other shards alone.
   */
  lemma {:induction false} StoreThreadsAppends(s: State, today: string, threads: seq<Value>, start: nat, limit: int,
                                               after: Value, dumps: Ingest.Dumps, encode: Ingest.Encoder)
    requires Inv(s.store) && AllDumpable(threads) && AllDicts(threads)
    requires Ingest.EncodesWidth(encode, TodayBefore(s.store, today).dim)
    ensures var st' := StoreThreads(s, today, threads, start, limit, after, dumps, encode).store;
      TodayRecordsBefore(st', today) == TodayRecordsBefore(s.store, today) + ConversationRecords(threads, start, limit, after)
      && TodayBefore(st', today).dim == TodayBefore(s.store, today).dim
      && OtherShardsKept(s.store, st', today)
    decreases |threads|
  {
    if |threads| == 0 {
      assert ConversationRecords(threads, start, limit, after) == [];
    } else {
      var t := threads[0];
      var s' := BaseHandler.StoreInFaissSafely(s, today, [t], "conversation_thread",
                                               ThreadExtras(t, start, limit, after), dumps, encode);
      AllDictsTail(threads);
      StoreThreadStep(s, today, t, start, limit, after, dumps, encode);
      StoreThreadsAppends(s', today, threads[1..], start + 1, limit, after, dumps, encode);
      var st' := StoreThreads(s', today, threads[1..], start + 1, limit, after, dumps, encode).store;
      assert StoreThreads(s, today, threads, start, limit, after, dumps, encode).store == st';
      OtherShardsKeptTransitive(s.store, s'.store, st', today);
      ConversationRecordsCons(threads, start, limit, after);
      Seqs.AppendInFront(TodayRecordsBefore(s.store, today), ConversationRecord(t, start, limit, after),
                         ConversationRecords(threads[1..], start + 1, limit, after));
    }
  }

  /** Storing one encodable thread appends its envelope to today's metadata and nothing else. */
  lemma StoreThreadStep(s: State, today: string, t: Value, i: nat, limit: int, after: Value,
                        dumps: Ingest.Dumps, encode: Ingest.Encoder)
    requires Inv(s.store) && Dumpable(t) && t.Obj?
    requires Ingest.EncodesWidth(encode, TodayBefore(s.store, today).dim)
    ensures var st' := BaseHandler.StoreInFaissSafely(s, today, [t], "conversation_thread",
                                                      ThreadExtras(t, i, limit, after), dumps, encode).store;
      Inv(st')
      && TodayRecordsBefore(st', today) == TodayRecordsBefore(s.store, today) + [ConversationRecord(t, i, limit, after)]
      && TodayBefore(st', today).dim == TodayBefore(s.store, today).dim
      && OtherShardsKept(s.store, st', today)
  {
    var extras := ThreadExtras(t, i, limit, after);
    assert AllDumpable([t]);
    var vs := Ingest.GenerateEmbeddings([t], dumps, encode).value;
    BaseHandler.StoreSafelyIsStore(s, today, [t], "conversation_thread", extras, dumps, encode);
    Ingest.StoreInFaissEffect(s, today, [t], "conversation_thread", extras, dumps, encode, vs);
    var recs := Ingest.Records([t], "conversation_thread", extras);
    assert recs == [ConversationRecord(t, i, limit, after)] by {
      assert |recs| == 1 && recs[0] == Ingest.Envelope(t, "conversation_thread", extras);
    }
  }

  /**
   * Each stored envelope reads back as the thread itself under `data`, the
   * thread's id (or `unknown_i`) under `thread_id`, and the data type.
   */
  lemma ConversationRecordFields(thread: Value, i: nat, limit: int, after: Value)
    ensures var r := ConversationRecord(thread, i, limit, after);
      Get(r, "data") == Some(thread)
      && Get(r, "type") == Some(Str("conversation_thread"))
      && Get(r, "thread_id") == Some(GetOr(thread, "id", Str("unknown_" + Text.NatToString(i))))
  {
    var vs := [GetOr(thread, "id", Str("unknown_" + Text.NatToString(i))), Int(limit), after];
    ThreadExtraKeysDistinct();
    Ingest.EnvelopeItem(thread, "conversation_thread", ThreadExtraKeys, vs);
    Ingest.EnvelopeExtra(thread, "conversation_thread", ThreadExtraKeys, vs, 0);
  }

  // ------------------------------------------------------------- truncating

  const MaxTextLength: nat := 200

  /** `v[:200] if v else ""`: slicing anything but a string or a list raises. */
  function TruncateText(v: Value): (r: Result<Value, string>)
    ensures !Truthy(v) ==> r == Success(Str(""))
    ensures r.Failure? <==> Truthy(v) && !v.Str? && !v.Arr?
    ensures r.Success? && Truthy(v) && v.Str? ==>
      r.value.Str? && r.value.s <= v.s && |r.value.s| <= MaxTextLength && (|v.s| <= MaxTextLength ==> r.value == v)
    ensures r.Success? && Truthy(v) && v.Arr? ==>
      r.value.Arr? && r.value.items <= v.items && |r.value.items| <= MaxTextLength
      && (|v.items| <= MaxTextLength ==> r.value == v)
  {
    if !Truthy(v) then Success(Str(""))
    else match v
      case Str(s) => Success(Str(Text.Head(s, MaxTextLength)))
      case Arr(items) => Success(Arr(if |items| <= MaxTextLength then items else items[..MaxTextLength]))
      case _ => Failure("TypeError: object is not subscriptable")
  }

  /** Truncating a truncated value changes nothing. */
  lemma TruncateTextIdempotent(v: Value)
    requires TruncateText(v).Success?
    ensures TruncateText(TruncateText(v).value) == TruncateText(v)
  {
  }

  /** `if key in message: message[key] = ...`: an absent key is left absent. */
  function TruncateField(fields: Fields, key: string): (r: Result<Fields, string>)
    ensures r.Success? ==> Keys(r.value) == Keys(fields)
    ensures key !in Keys(fields) ==> r == Success(fields)
    ensures r.Success? ==> forall k :: k != key ==> Lookup(r.value, k) == Lookup(fields, k)
    ensures key in Keys(fields) ==>
      (r.Success? <==> TruncateText(Lookup(fields, key).value).Success?)
      && (r.Success? ==> Lookup(r.value, key) == Some(TruncateText(Lookup(fields, key).value).value))
  {
    if key !in Keys(fields) then Success(fields)
    else match TruncateText(Lookup(fields, key).value)
      case Failure(e) => Failure(e)
      case Success(t) => Success(Put(fields, key, t))
  }

  /** The loop body for one message: `text`, then `rich_text`. A non-dict message holds no keys and is left as it is. */
  function TruncateMessage(m: Value): (r: Result<Value, string>)
    ensures !m.Obj? ==> r == Success(m)
    ensures r.Success? && m.Obj? ==> r.value.Obj? && Keys(r.value.fields) == Keys(m.fields)
  {
    if !m.Obj? then Success(m)
    else match TruncateField(m.fields, "text")
      case Failure(e) => Failure(e)
      case Success(fs) =>
        match TruncateField(fs, "rich_text")
        case Failure(e) => Failure(e)
        case Success(fs') => Success(Obj(fs'))
  }

  /**
   * A truncated message keeps its keys; each of `text` and `rich_text`
   * present becomes its truncation, and every other field is unchanged.
   */
  lemma TruncateMessageFields(m: Value, k: string)
    requires m.Obj? && TruncateMessage(m).Success?
    ensures var r := TruncateMessage(m).value;
      (k == "text" || k == "rich_text") && Has(m, k) ==>
        TruncateText(Get(m, k).value).Success? && Get(r, k) == Some(TruncateText(Get(m, k).value).value)
    ensures var r := TruncateMessage(m).value;
      k != "text" && k != "rich_text" ==> Get(r, k) == Get(m, k)
    ensures var r := TruncateMessage(m).value;
      Has(r, k) <==> Has(m, k)
  {
  }

  /** Truncating a truncated message changes nothing. */
  lemma TruncateMessageIdempotent(m: Value)
    requires TruncateMessage(m).Success?
    ensures TruncateMessage(TruncateMessage(m).value) == TruncateMessage(m)
  {
    if m.Obj? {
      var fs := TruncateField(m.fields, "text").value;
      var fs' := TruncateField(fs, "rich_text").value;
      if "text" in Keys(m.fields) {
        TruncateTextIdempotent(Lookup(m.fields, "text").value);
      }
      if "rich_text" in Keys(m.fields) {
        TruncateTextIdempotent(Lookup(fs, "rich_text").value);
      }
      var gs := TruncateField(fs', "text").value;
      var gs' := TruncateField(gs, "rich_text").value;
      PutSame(fs', "text", gs);
      PutSame(gs, "rich_text", gs');
    }
  }

  /** Putting back the value a key already holds leaves the fields as they were. */
  lemma {:induction false} PutSame(fields: Fields, key: string, r: Fields)
    requires TruncateField(fields, key) == Success(r)
    requires key in Keys(fields) ==> TruncateText(Lookup(fields, key).value) == Success(Lookup(fields, key).value)
    ensures r == fields
  {
    if key in Keys(fields) {
      PutExisting(fields, key);
    }
  }

  /** `d[key] = d[key]` changes nothing. */
  lemma {:induction false} PutExisting(fields: Fields, key: string)
    requires key in Keys(fields)
    ensures Put(fields, key, Lookup(fields, key).value) == fields
    decreases |fields|
  {
    if fields[0].0 != key {
      assert Keys(fields) == [fields[0].0] + Keys(fields[1..]);
      PutExisting(fields[1..], key);
    }
  }

  /**
   * The loop over one thread's `messages`: a thread that is not a dict
   * raises, one without a message list is left as it is.
   */
  function TruncateThread(t: Value): (r: Result<Value, string>)
    ensures !t.Obj? ==> r == Failure(NoGetMessage)
    ensures r.Success? ==> r.value.Obj? && Keys(r.value.fields) == Keys(t.fields)
    ensures r.Success? ==> |MessagesOf(r.value)| == |MessagesOf(t)|
  {
    if !t.Obj? then Failure(NoGetMessage)
    else if !Has(t, "messages") || !GetOr(t, "messages", Arr([])).Arr? then Success(t)
    else match Seqs.MapAll(GetOr(t, "messages", Arr([])).items, TruncateMessage)
      case Failure(e) => Failure(e)
      case Success(ms) => Success(Obj(Put(t.fields, "messages", Arr(ms))))
  }

  /** The messages of a thread, as `thread.get("messages", [])` lists them. */
  function MessagesOf(t: Value): seq<Value> {
    ListOf(GetOr(t, "messages", Arr([])))
  }

  /** A truncated thread holds, in order, the truncation of each of its messages. */
  lemma TruncateThreadMessages(t: Value)
    requires TruncateThread(t).Success?
    ensures forall i :: 0 <= i < |MessagesOf(t)| ==>
      TruncateMessage(MessagesOf(t)[i]) == Success(MessagesOf(TruncateThread(t).value)[i])
  {
    if Has(t, "messages") && GetOr(t, "messages", Arr([])).Arr? {
      var ms := Seqs.MapAll(GetOr(t, "messages", Arr([])).items, TruncateMessage).value;
      assert Lookup(Put(t.fields, "messages", Arr(ms)), "messages") == Some(Arr(ms));
    }
  }

  /** `results.copy()` on anything but a dict (a list has `copy` but then lacks `get`). */
  const NotADictMessage: string := "AttributeError: object has no attribute 'copy'"

  /** `_truncate_conversation_messages`, as a value: the threads under `results` with their messages truncated. */
  function TruncateConversationMessages(results: Value): (r: Result<Value, string>)
    ensures !results.Obj? ==> r == Failure(NotADictMessage)
    ensures r.Success? ==> r.value.Obj? && Keys(r.value.fields) == Keys(results.fields)
  {
    if !results.Obj? then Failure(NotADictMessage)
    else if !Has(results, "results") || !GetOr(results, "results", Arr([])).Arr? then Success(results)
    else match Seqs.MapAll(GetOr(results, "results", Arr([])).items, TruncateThread)
      case Failure(e) => Failure(e)
      case Success(ts) => Success(Obj(Put(results.fields, "results", Arr(ts))))
  }

  /** The threads of a response, as `results.get("results", [])` lists them. */
  function ThreadsOf(results: Value): seq<Value> {
    ListOf(GetOr(results, "results", Arr([])))
  }

  /**
   * Truncation adds no keys and keeps the number of threads and, thread by
   * thread, the number of messages.
   */
  lemma TruncationKeepsCounts(results: Value)
    requires TruncateConversationMessages(results).Success?
    ensures var r := TruncateConversationMessages(results).value;
      |ThreadsOf(r)| == |ThreadsOf(results)|
      && forall i :: 0 <= i < |ThreadsOf(results)| ==>
           TruncateThread(ThreadsOf(results)[i]) == Success(ThreadsOf(r)[i])
           && |MessagesOf(ThreadsOf(r)[i])| == |MessagesOf(ThreadsOf(results)[i])|
  {
    if Has(results, "results") && GetOr(results, "results", Arr([])).Arr? {
      var ts := Seqs.MapAll(GetOr(results, "results", Arr([])).items, TruncateThread).value;
      assert Lookup(Put(results.fields, "results", Arr(ts)), "results") == Some(Arr(ts));
    }
  }

  /**
   * A `text` or `rich_text` string of the original message becomes, in the
   * truncated one, a prefix of it of at most 200 characters, and stays
   * whole when it already fits.
   */
  predicate TextShortened(m': Value, m: Value, key: string) {
    Has(m, key) && Get(m, key).value.Str? ==>
      Get(m', key).Some? && Get(m', key).value.Str?
      && Get(m', key).value.s <= Get(m, key).value.s
      && |Get(m', key).value.s| <= MaxTextLength
      && (|Get(m, key).value.s| <= MaxTextLength ==> Get(m', key) == Get(m, key))
  }

  /**
   * In the truncated response, the `j`-th message of the `i`-th thread
   * sits where it did, and its `text` and `rich_text` are cut to prefixes
   * of at most 200 characters.
   */
  lemma TruncatedMessageTexts(results: Value, i: nat, j: nat)
    ensures (TruncateConversationMessages(results).Success?
             && i < |ThreadsOf(results)| && j < |MessagesOf(ThreadsOf(results)[i])|) ==>
      var t := TruncateConversationMessages(results).value;
      i < |ThreadsOf(t)| && j < |MessagesOf(ThreadsOf(t)[i])|
      && TextShortened(MessagesOf(ThreadsOf(t)[i])[j], MessagesOf(ThreadsOf(results)[i])[j], "text")
      && TextShortened(MessagesOf(ThreadsOf(t)[i])[j], MessagesOf(ThreadsOf(results)[i])[j], "rich_text")
  {
    if TruncateConversationMessages(results).Success?
      && i < |ThreadsOf(results)| && j < |MessagesOf(ThreadsOf(results)[i])| {
      TruncatedMessageTextsAt(results, i, j);
    }
  }

  lemma TruncatedMessageTextsAt(results: Value, i: nat, j: nat)
    requires TruncateConversationMessages(results).Success?
    requires i < |ThreadsOf(results)| && j < |MessagesOf(ThreadsOf(results)[i])|
    ensures var t := TruncateConversationMessages(results).value;
      i < |ThreadsOf(t)| && j < |MessagesOf(ThreadsOf(t)[i])|
      && TextShortened(MessagesOf(ThreadsOf(t)[i])[j], MessagesOf(ThreadsOf(results)[i])[j], "text")
      && TextShortened(MessagesOf(ThreadsOf(t)[i])[j], MessagesOf(ThreadsOf(results)[i])[j], "rich_text")
  {
    TruncationKeepsCounts(results);
    var th := ThreadsOf(results)[i];
    var t := TruncateConversationMessages(results).value;
    assert TruncateThread(th) == Success(ThreadsOf(t)[i]);
    TruncateThreadMessages(th);
    MessageShortened(MessagesOf(th)[j], "text");
    MessageShortened(MessagesOf(th)[j], "rich_text");
  }

  /** A truncated string is a prefix of at most 200 characters, the whole string when it fits. */
  lemma ShortenedText(v: Value)
    requires v.Str?
    ensures TruncateText(v).Success? && TruncateText(v).value.Str?
    ensures TruncateText(v).value.s <= v.s && |TruncateText(v).value.s| <= MaxTextLength
    ensures |v.s| <= MaxTextLength ==> TruncateText(v).value == v
  {
  }

  /** One truncated message shortens its `text` or `rich_text` string. */
  lemma MessageShortened(m: Value, key: string)
    requires TruncateMessage(m).Success?
    requires key == "text" || key == "rich_text"
    ensures TextShortened(TruncateMessage(m).value, m, key)
  {
    if m.Obj? && Has(m, key) && Get(m, key).value.Str? {
      var v := Get(m, key).value;
      TruncateMessageFields(m, key);
      ShortenedText(v);
    }
  }

  // ---------------------------------------------------------------- handler

  /** The tool's outcome: the text response (or the exception that escaped), the store and the thread cache. */
  datatype Outcome = Outcome(response: Result<seq<BaseHandler.TextContent>, string>, state: State, cache: Value)

  /**
   * `get_recent_conversations`: read the arguments, ask the client, store
   * the threads as returned, and only then truncate a copy for the response.
   * `fetched` and `fetch` stand for the client's requests. The `state`
   * returned is the intended one, whose records keep each thread in full;
   * as written, the shallow copy makes today's in-memory records hold the
   * truncated threads instead, which `AliasedRecord` gives.
   */
  function GetRecentConversations(args: Value, s: State, today: string, cache: Value, fetched: Result<Value, string>,
                                  fetch: Value -> Result<Value, string>, dumps: Ingest.Dumps, encode: Ingest.Encoder)
    : (r: Outcome)
    ensures LimitArgument(args).Failure? ==> r == Outcome(Failure(LimitArgument(args).error), s, cache)
    ensures LimitArgument(args).Success? ==>
      var after := BaseHandler.GetArgumentWithDefault(args, "after", Null);
      var refresh := Truthy(BaseHandler.GetArgumentWithDefault(args, "refresh_cache", Bool(false)));
      var client := ConversationClient.GetRecentThreads(after, refresh, cache, fetched, fetch, dumps);
      var truncated := TruncateConversationMessages(client.0);
      r.cache == client.1
      && r.state == StoreConversationsInFaiss(s, today, client.0, LimitArgument(args).value, after, dumps, encode)
      && (truncated.Failure? ==> r.response == Failure(truncated.error))
      && (truncated.Success? ==> r.response == BaseHandler.CreateTextResponse(truncated.value, dumps))
  {
    match LimitArgument(args)
    case Failure(e) => Outcome(Failure(e), s, cache)
    case Success(limit) =>
      var after := BaseHandler.GetArgumentWithDefault(args, "after", Null);
      var refresh := Truthy(BaseHandler.GetArgumentWithDefault(args, "refresh_cache", Bool(false)));
      var (results, cache') := ConversationClient.GetRecentThreads(after, refresh, cache, fetched, fetch, dumps);
      var s' := StoreConversationsInFaiss(s, today, results, limit, after, dumps, encode);
      match TruncateConversationMessages(results)
      case Failure(e) => Outcome(Failure(e), s', cache')
      case Success(truncated) => Outcome(BaseHandler.CreateTextResponse(truncated, dumps), s', cache')
  }

  /**
   * The store receives the client's threads before any truncation: with
   * encodable threads, today's metadata gains one envelope per returned
   * thread whose `data` is that thread in full, while the response carries
   * the truncated copy.
   */
  lemma StoredBeforeTruncation(args: Value, s: State, today: string, cache: Value, fetched: Result<Value, string>,
                               fetch: Value -> Result<Value, string>, dumps: Ingest.Dumps, encode: Ingest.Encoder)
    requires Inv(s.store) && LimitArgument(args).Success?
    requires Ingest.EncodesWidth(encode, TodayBefore(s.store, today).dim)
    ensures var after := BaseHandler.GetArgumentWithDefault(args, "after", Null);
      var refresh := Truthy(BaseHandler.GetArgumentWithDefault(args, "refresh_cache", Bool(false)));
      var results := ConversationClient.GetRecentThreads(after, refresh, cache, fetched, fetch, dumps).0;
      var threads := ThreadsOf(results);
      var st' := GetRecentConversations(args, s, today, cache, fetched, fetch, dumps, encode).state.store;
      Truthy(GetOr(results, "results", Arr([]))) && AllDumpable(threads) && AllDicts(threads) ==>
        TodayRecordsBefore(st', today)
          == TodayRecordsBefore(s.store, today) + ConversationRecords(threads, 0, LimitArgument(args).value, after)
  {
    var after := BaseHandler.GetArgumentWithDefault(args, "after", Null);
    var refresh := Truthy(BaseHandler.GetArgumentWithDefault(args, "refresh_cache", Bool(false)));
    var results := ConversationClient.GetRecentThreads(after, refresh, cache, fetched, fetch, dumps).0;
    var threads := ThreadsOf(results);
    if Truthy(GetOr(results, "results", Arr([]))) && AllDumpable(threads) && AllDicts(threads) {
      StoreThreadsAppends(s, today, threads, 0, LimitArgument(args).value, after, dumps, encode);
    }
  }

  // ---------------------------------------------------- shared thread dicts

  /**
   * The truncation loop edits the thread dicts of `results` in place, and
   * `results.copy()` copies only the outer dict. The same thread dicts are
   * the `data` of the envelopes `add_data` appended to today's in-memory
   * metadata, so, as written, a stored envelope ends up holding the
   * truncated thread. This is what the envelope becomes.
   */
  function AliasedRecord(rec: Value): (r: Value)
    ensures !Has(rec, "data") ==> r == rec
    ensures Has(rec, "data") && TruncateThread(Get(rec, "data").value).Success? ==>
      Get(r, "data") == Some(TruncateThread(Get(rec, "data").value).value)
  {
    if !Has(rec, "data") then rec
    else match TruncateThread(Get(rec, "data").value)
      case Failure(_) => rec
      case Success(t) => Obj(Put(rec.fields, "data", t))
  }

  /** As written, the envelope stored for a thread holds, after the response is built, the truncated thread. */
  lemma AliasedRecordHoldsTruncation(t: Value, i: nat, limit: int, after: Value)
    requires TruncateThread(t).Success?
    ensures Get(AliasedRecord(ConversationRecord(t, i, limit, after)), "data") == Some(TruncateThread(t).value)
  {
    ConversationRecordFields(t, i, limit, after);
  }

  /** A message text one character over the limit. */
  const LongText: string := seq(MaxTextLength + 1, _ => 'a')

  /** A thread with that single message. */
  const LongThread: Value := Obj([("id", Str("1")), ("messages", Arr([Obj([("text", Str(LongText))])]))])

  /**
   * The counterexample: the thread is stored in full, but the in-memory
   * envelope that the response's truncation reaches through the shared
   * dict no longer holds it.
   */
  lemma AliasingLosesStoredText()
    ensures Get(ConversationRecord(LongThread, 0, DefaultLimit, Null), "data") == Some(LongThread)
    ensures Get(AliasedRecord(ConversationRecord(LongThread, 0, DefaultLimit, Null)), "data") != Some(LongThread)
  {
    var m := Obj([("text", Str(LongText))]);
    assert Keys(LongThread.fields) == ["id", "messages"];
    assert Get(LongThread, "messages") == Some(Arr([m]));
    assert MessagesOf(LongThread) == [m];
    assert TruncateMessage(m).Success?;
    assert TruncateThread(LongThread).Success?;
    var t' := TruncateThread(LongThread).value;
    TruncateThreadMessages(LongThread);
    TruncateMessageFields(m, "text");
    var m' := MessagesOf(t')[0];
    assert Get(m', "text") == Some(Str(Text.Head(LongText, MaxTextLength)));
    assert |Text.Head(LongText, MaxTextLength)| == MaxTextLength;
    assert t' != LongThread;
    AliasedRecordHoldsTruncation(LongThread, 0, DefaultLimit, Null);
    ConversationRecordFields(LongThread, 0, DefaultLimit, Null);
  }
}
