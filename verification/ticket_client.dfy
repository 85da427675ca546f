/**
 * The ticket client's decision logic: which filter groups a criteria
 * selects, the retry-with-backoff loop around the ticket search, and how a
 * ticket's conversation threads are collected and summarised.
 */
module TicketClient {
  import opened Wrappers
  import opened Json
  import Text
  import Seqs
  import Formatters
  import Ingest
  import ErrorHandler

  // ---------------------------------------------------------------- filters

  /** A filter group holding the single condition `prop op value`. */
  function FilterGroup(prop: string, op: string, value: string): Value {
    Obj([("filters", Arr([Obj([("propertyName", Str(prop)), ("operator", Str(op)), ("value", Str(value))])]))])
  }

  /** The single condition of a group built by `FilterGroup`, read back. */
  function ConditionOf(group: Value): Option<(Value, Value, Value)> {
    var fs := ListOf(GetOrNull(group, "filters"));
    if |fs| != 1 then None
    else Some((GetOrNull(fs[0], "propertyName"), GetOrNull(fs[0], "operator"), GetOrNull(fs[0], "value")))
  }

  lemma ConditionOfFilterGroup(prop: string, op: string, value: string)
    ensures ConditionOf(FilterGroup(prop, op, value)) == Some((Str(prop), Str(op), Str(value)))
  {
    var f := [("propertyName", Str(prop)), ("operator", Str(op)), ("value", Str(value))];
    assert f[1..] == [f[1], f[2]] && f[1..][1..] == [f[2]];
  }

  /** The default criteria: closed, or last modified, after `oneDayAgo` (two groups, so either may match). */
  function DefaultCriteriaFilters(oneDayAgo: string): seq<Value> {
    [FilterGroup("closedate", "GT", oneDayAgo), FilterGroup("hs_lastmodifieddate", "GT", oneDayAgo)]
  }

  /** The closed criteria: pipeline stage `"4"` or `"Closed"`. */
  function ClosedCriteriaFilters(): seq<Value> {
    [FilterGroup("hs_pipeline_stage", "EQ", "4"), FilterGroup("hs_pipeline_stage", "EQ", "Closed")]
  }

  function InvalidCriteriaMessage(criteria: string): string {
    "Invalid criteria: " + criteria + ". Must be 'default' or 'Closed'"
  }

  /** `_create_filter_groups_for_criteria`, with the `ValueError` for any other criteria. */
  function CreateFilterGroupsForCriteria(criteria: string, oneDayAgo: string): (r: Result<seq<Value>, string>)
    ensures r.Success? <==> criteria == "default" || criteria == "Closed"
    ensures r.Failure? ==> r.error == InvalidCriteriaMessage(criteria)
  {
    if criteria == "default" then Success(DefaultCriteriaFilters(oneDayAgo))
    else if criteria == "Closed" then Success(ClosedCriteriaFilters())
    else Failure(InvalidCriteriaMessage(criteria))
  }

  /**
   * Read back, the default groups are `closedate > t` and
   * `hs_lastmodifieddate > t` for one shared timestamp `t`, and the closed
   * groups are the two accepted spellings of the closed stage.
   */
  lemma FilterGroupsMeaning(criteria: string, oneDayAgo: string)
    requires criteria == "default" || criteria == "Closed"
    ensures var gs := CreateFilterGroupsForCriteria(criteria, oneDayAgo).value;
      |gs| == 2
      && (criteria == "default" ==>
            ConditionOf(gs[0]) == Some((Str("closedate"), Str("GT"), Str(oneDayAgo)))
            && ConditionOf(gs[1]) == Some((Str("hs_lastmodifieddate"), Str("GT"), Str(oneDayAgo))))
      && (criteria == "Closed" ==>
            ConditionOf(gs[0]) == Some((Str("hs_pipeline_stage"), Str("EQ"), Str("4")))
            && ConditionOf(gs[1]) == Some((Str("hs_pipeline_stage"), Str("EQ"), Str("Closed"))))
  {
    ConditionOfFilterGroup("closedate", "GT", oneDayAgo);
    ConditionOfFilterGroup("hs_lastmodifieddate", "GT", oneDayAgo);
    ConditionOfFilterGroup("hs_pipeline_stage", "EQ", "4");
    ConditionOfFilterGroup("hs_pipeline_stage", "EQ", "Closed");
  }

  // ------------------------------------------------------------ retry loop

  /** The ticket search request: its filter groups and page size (sort and properties are fixed). */
  datatype SearchRequest = SearchRequest(filterGroups: seq<Value>, limit: int)

  /** One page of search results: the tickets, the `paging.next.after` token if any, and the total. */
  datatype Page = Page(tickets: seq<Value>, after: Option<Value>, total: Value)

  /**
   * What one call of the search API does: return a page, raise an
   * `ApiException` carrying an HTTP status (possibly none) and message, or
   * raise anything else.
   */
  datatype Attempt =
    | Response(page: Page)
    | ApiError(status: Option<int>, message: string)
    | OtherError(message: string)

  /** Only a 429 or a 5xx status is worth retrying. */
  predicate Retryable(a: Attempt) {
    a.ApiError? && a.status.Some? && (a.status.value == 429 || 500 <= a.status.value < 600)
  }

  /** `e.status >= 500` on an exception without a status. */
  const NoStatusMessage: string := "'>=' not supported between instances of 'NoneType' and 'int'"

  /** `time.sleep` refuses a negative duration. */
  const NegativeSleepMessage: string := "sleep length must be non-negative"

  function Pow2(n: nat): (p: nat)
    ensures p >= 1
  {
    if n == 0 then 1 else 2 * Pow2(n - 1)
  }

  /** `retry_delay * 2 ** n`: the delay slept before the call after the `n`-th failed one. */
  function Backoff(retryDelay: real, n: nat): real {
    retryDelay * (Pow2(n) as real)
  }

  /** The most sleeps the loop can take: `max_retries`, or none when it is not positive. */
  function MaxSleeps(maxRetries: int): nat {
    if maxRetries > 0 then maxRetries else 0
  }

  /** The dictionary returned for a page: converted tickets, the pagination token and the total. */
  function TicketsResponse(page: Page): Value {
    Obj([("results", Formatters.ConvertDatetimeFields(Arr(page.tickets))),
         ("pagination", Obj([("next", Obj([("after", page.after.GetOr(Null))]))])),
         ("total", page.total)])
  }

  /**
   * The message of the exception that ends the retry loop on a failed call
   * `a`: the error's own message; the `'>='` TypeError when it has no
   * status; and `time.sleep`'s ValueError when a retryable failure would be
   * retried after a negative delay (only the first sleep can be negative,
   * so this happens only when a retry is allowed at all).
   */
  function SearchFailureMessage(a: Attempt, maxRetries: int, retryDelay: real): string
    requires !a.Response?
  {
    match a
    case OtherError(message) => message
    case ApiError(status, message) =>
      if status.None? then NoStatusMessage
      else if Retryable(a) && maxRetries >= 1 && retryDelay < 0.0 then NegativeSleepMessage
      else message
  }

  /**
   * `_execute_ticket_search_with_retry`: `attempt(n)` is what the `n`-th
   * call of the search does, and `sleeps` lists the delays slept, in order.
   * The result is the page, or the message of the exception that escaped.
   */
  method ExecuteTicketSearchWithRetry(attempt: nat -> Attempt, maxRetries: int, retryDelay: real)
    returns (r: Result<Value, string>, sleeps: seq<real>)
    ensures |sleeps| <= MaxSleeps(maxRetries)
    ensures forall n :: 0 <= n < |sleeps| ==> sleeps[n] == Backoff(retryDelay, n)
    ensures forall n :: 0 <= n < |sleeps| ==> Retryable(attempt(n))
    ensures r.Success? <==> attempt(|sleeps|).Response?
    ensures r.Success? ==> r.value == TicketsResponse(attempt(|sleeps|).page)
    ensures attempt(|sleeps|).OtherError? ==> r == Failure(attempt(|sleeps|).message)
    ensures attempt(|sleeps|).ApiError? && attempt(|sleeps|).status.None? ==> r == Failure(NoStatusMessage)
    ensures attempt(|sleeps|).ApiError? && attempt(|sleeps|).status.Some? && !Retryable(attempt(|sleeps|))
      ==> r == Failure(attempt(|sleeps|).message)
    ensures Retryable(attempt(|sleeps|)) ==>
      (|sleeps| == MaxSleeps(maxRetries) && r == Failure(attempt(|sleeps|).message))
      || (retryDelay < 0.0 && |sleeps| == 0 && r == Failure(NegativeSleepMessage))
    ensures !attempt(|sleeps|).Response? ==>
      r == Failure(SearchFailureMessage(attempt(|sleeps|), maxRetries, retryDelay))
  {
    var retryCount: nat := 0;
    sleeps := [];
    while true
      invariant retryCount == |sleeps| <= MaxSleeps(maxRetries)
      invariant forall n :: 0 <= n < |sleeps| ==> sleeps[n] == Backoff(retryDelay, n)
      invariant forall n :: 0 <= n < |sleeps| ==> Retryable(attempt(n))
      invariant |sleeps| > 0 ==> retryDelay >= 0.0
      decreases MaxSleeps(maxRetries) - retryCount
    {
      var a := attempt(retryCount);
      match a
      case Response(page) =>
        return Success(TicketsResponse(page)), sleeps;
      case OtherError(message) =>
        return Failure(message), sleeps;
      case ApiError(status, message) =>
        if status.None? {
          return Failure(NoStatusMessage), sleeps;
        }
        if status.value == 429 || (status.value >= 500 && status.value < 600) {
          assert Retryable(a);
          if retryCount + 1 > maxRetries {
            return Failure(message), sleeps;
          }
          var sleepTime := Backoff(retryDelay, retryCount);
          SleepSign(retryDelay, retryCount);
          if sleepTime < 0.0 {
            return Failure(NegativeSleepMessage), sleeps;
          }
          AppendSleep(sleeps, retryDelay, sleepTime);
          sleeps := sleeps + [sleepTime];
          retryCount := retryCount + 1;
        } else {
          return Failure(message), sleeps;
        }
    }
  }

  /** A backoff has the sign of the initial delay. */
  lemma SleepSign(d: real, n: nat)
    ensures Backoff(d, n) < 0.0 <==> d < 0.0
  {
    var p := Pow2(n) as real;
    if d < 0.0 {
      assert d * p <= d * 1.0;
    } else {
      assert d * p >= 0.0;
    }
  }

  /** Appending the next doubled delay keeps the schedule. */
  lemma AppendSleep(sleeps: seq<real>, retryDelay: real, sleepTime: real)
    requires forall n :: 0 <= n < |sleeps| ==> sleeps[n] == Backoff(retryDelay, n)
    requires sleepTime == Backoff(retryDelay, |sleeps|)
    ensures var s' := sleeps + [sleepTime];
      forall n :: 0 <= n < |s'| ==> s'[n] == Backoff(retryDelay, n)
  {
  }

  /**
   * The backoff doubles: each sleep after the first is twice the one before.
   */
  lemma SleepsDouble(sleeps: seq<real>, retryDelay: real)
    requires forall n :: 0 <= n < |sleeps| ==> sleeps[n] == Backoff(retryDelay, n)
    ensures forall n :: 0 < n < |sleeps| ==> sleeps[n] == 2.0 * sleeps[n - 1]
  {
    forall n | 0 < n < |sleeps| ensures sleeps[n] == 2.0 * sleeps[n - 1] {
      assert Pow2(n) == 2 * Pow2(n - 1);
      assert sleeps[n] == retryDelay * (2.0 * (Pow2(n - 1) as real));
    }
  }

  // --------------------------------------------------------------- threads

  /** The thread id of one association entry: `toObjectId` if present, else `id`, as `str(...)`. */
  function ThreadIdOf(conversation: Value): Option<string> {
    if Has(conversation, "toObjectId") then Some(PyStr(GetOrNull(conversation, "toObjectId")))
    else if Has(conversation, "id") then Some(PyStr(GetOrNull(conversation, "id")))
    else None
  }

  /** The ids of a list of association entries, in order, skipping entries with neither field. */
  function ThreadIds(conversations: seq<Value>): (ids: seq<string>)
    ensures |ids| <= |conversations|
  {
    Seqs.FlatMapShorter(conversations, c => Seqs.OptionSeq(ThreadIdOf(c)));
    Seqs.FlatMap(conversations, c => Seqs.OptionSeq(ThreadIdOf(c)))
  }

  /** `_extract_thread_ids` on the associations response. */
  function ExtractThreadIds(associated: Value): seq<string> {
    ThreadIds(ListOf(GetOr(associated, "results", Arr([]))))
  }

  /** Extraction keeps input order: the ids of a concatenation are the concatenated ids. */
  lemma ThreadIdsAppend(a: seq<Value>, b: seq<Value>)
    ensures ThreadIds(a + b) == ThreadIds(a) + ThreadIds(b)
  {
    Seqs.FlatMapAppend(a, b, c => Seqs.OptionSeq(ThreadIdOf(c)));
  }

  /** Every entry carrying an id contributes it, and every id comes from such an entry. */
  lemma ThreadIdsMembers(conversations: seq<Value>, id: string)
    ensures id in ThreadIds(conversations) <==> exists c :: c in conversations && ThreadIdOf(c) == Some(id)
  {
    var f := c => Seqs.OptionSeq(ThreadIdOf(c));
    Seqs.FlatMapMembers(conversations, f, id);
    if id in ThreadIds(conversations) {
      var c :| c in conversations && id in f(c);
      assert ThreadIdOf(c) == Some(id);
    }
  }

  /** `_determine_sender_type`; raises (`None`) when the first sender is a `FROM` sender whose `actorId` is not a string. */
  function DetermineSenderType(msg: Value): (r: Option<string>)
    ensures r.Some? ==> r.value in {"UNKNOWN", "AGENT", "CUSTOMER"}
  {
    var senders := GetOrNull(msg, "senders");
    if !Truthy(senders) || |ListOf(senders)| == 0 then Some("UNKNOWN")
    else
      var sender := ListOf(senders)[0];
      if GetOrNull(sender, "senderField") != Str("FROM") then Some("CUSTOMER")
      else
        var actor := GetOr(sender, "actorId", Str(""));
        if !actor.Str? then None
        else if Text.StartsWith(actor.s, "0-1") || Text.StartsWith(actor.s, "0-2") then Some("AGENT")
        else Some("CUSTOMER")
  }

  /** `UNKNOWN` exactly when there are no senders; `AGENT` exactly for a `FROM` sender with an agent actor id. */
  lemma SenderTypeCases(msg: Value)
    requires DetermineSenderType(msg).Some?
    ensures var senders := ListOf(GetOrNull(msg, "senders"));
      (DetermineSenderType(msg) == Some("UNKNOWN") <==> |senders| == 0)
      && (DetermineSenderType(msg) == Some("AGENT") <==>
            |senders| > 0
            && GetOrNull(senders[0], "senderField") == Str("FROM")
            && (Text.StartsWith(GetOr(senders[0], "actorId", Str("")).s, "0-1")
                || Text.StartsWith(GetOr(senders[0], "actorId", Str("")).s, "0-2")))
  {
  }

  /** `_format_message`: `None` when the sender type raises. */
  function FormatMessage(msg: Value): (r: Option<Value>)
    ensures r.Some? <==> DetermineSenderType(msg).Some?
  {
    match DetermineSenderType(msg)
    case None => None
    case Some(senderType) =>
      Some(Obj([("id", GetOrNull(msg, "id")), ("created_at", GetOrNull(msg, "createdAt")),
                ("sender_type", Str(senderType)), ("text", GetOr(msg, "text", Str("")))]))
  }

  /** The formatted messages, or `None` if formatting one of them raised. */
  function FormatMessages(msgs: seq<Value>): (r: Option<seq<Value>>)
    ensures r.Some? ==> |r.value| == |msgs|
    ensures r.Some? ==> forall i :: 0 <= i < |msgs| ==> FormatMessage(msgs[i]) == Some(r.value[i])
    decreases |msgs|
  {
    if |msgs| == 0 then Some([])
    else match (FormatMessage(msgs[0]), FormatMessages(msgs[1..]))
      case (Some(m), Some(rest)) => Some([m] + rest)
      case _ => None
  }

  /** The entries whose `type` is `"MESSAGE"`, in order. */
  function ActualMessages(results: seq<Value>): (ms: seq<Value>)
    ensures forall m :: m in ms ==> m in results && GetOrNull(m, "type") == Str("MESSAGE")
    ensures forall m :: m in results && GetOrNull(m, "type") == Str("MESSAGE") ==> m in ms
    decreases |results|
  {
    if |results| == 0 then []
    else if GetOrNull(results[0], "type") == Str("MESSAGE") then [results[0]] + ActualMessages(results[1..])
    else ActualMessages(results[1..])
  }

  /** The sort key `x.get("created_at", "")` of a formatted message, when it is a string. */
  function CreatedAt(m: Value): string {
    var c := GetOr(m, "created_at", Str(""));
    if c.Str? then c.s else ""
  }

  /** Python can only order the keys if every one is a string (a `None` key raises `TypeError`). */
  predicate StringKeys(ms: seq<Value>) {
    forall i :: 0 <= i < |ms| ==> GetOr(ms[i], "created_at", Str("")).Str?
  }

  /** `messages.sort(key=created_at)` on string keys. */
  function SortByCreatedAt(ms: seq<Value>): seq<Value> {
    Seqs.SortBy(ms, CreatedAt)
  }

  /**
   * One thread of `_get_thread_messages`: `None` when the fetch raised,
   * when formatting a message raised, or when sorting two or more messages
   * met a `created_at` that is not a string.
   */
  function FetchThread(threadId: string, fetch: string -> Result<Value, string>): (r: Option<Value>)
  {
    match fetch(threadId)
    case Failure(_) => None
    case Success(data) =>
      match FormatMessages(ActualMessages(ListOf(GetOr(data, "results", Arr([])))))
      case None => None
      case Some(formatted) =>
        if |formatted| >= 2 && !StringKeys(formatted) then None
        else Some(Obj([("id", Str(threadId)), ("messages", Arr(SortByCreatedAt(formatted)))]))
  }

  /** The messages of a formatted thread. */
  function MessagesOf(thread: Value): seq<Value> {
    ListOf(GetOrNull(thread, "messages"))
  }

  /**
   * A kept thread holds exactly its `MESSAGE` entries, formatted, as a
   * permutation sorted ascending by `created_at`.
   */
  lemma FetchThreadMessages(threadId: string, fetch: string -> Result<Value, string>)
    requires FetchThread(threadId, fetch).Some?
    ensures var actual := ActualMessages(ListOf(GetOr(fetch(threadId).value, "results", Arr([]))));
      var ms := MessagesOf(FetchThread(threadId, fetch).value);
      FormatMessages(actual).Some?
      && multiset(ms) == multiset(FormatMessages(actual).value)
      && |ms| == |actual|
      && Seqs.SortedBy(ms, CreatedAt)
      && Get(FetchThread(threadId, fetch).value, "id") == Some(Str(threadId))
  {
    var actual := ActualMessages(ListOf(GetOr(fetch(threadId).value, "results", Arr([]))));
    var formatted := FormatMessages(actual).value;
    Seqs.SortByPermutes(formatted, CreatedAt);
    Seqs.SortBySorted(formatted, CreatedAt);
    ThreadObjectFields(threadId, SortByCreatedAt(formatted));
  }

  lemma ThreadObjectFields(threadId: string, ms: seq<Value>)
    ensures var t := Obj([("id", Str(threadId)), ("messages", Arr(ms))]);
      MessagesOf(t) == ms && Get(t, "id") == Some(Str(threadId))
  {
    var fs := [("id", Str(threadId)), ("messages", Arr(ms))];
    assert fs[1..] == [fs[1]];
  }

  /** A thread with two or more messages, one of whose `created_at` is not a string, is dropped. */
  lemma UnsortableThreadDropped(threadId: string, fetch: string -> Result<Value, string>)
    requires fetch(threadId).Success?
    requires var f := FormatMessages(ActualMessages(ListOf(GetOr(fetch(threadId).value, "results", Arr([])))));
      f.Some? && |f.value| >= 2 && exists i :: 0 <= i < |f.value| && !GetOr(f.value[i], "created_at", Str("")).Str?
    ensures FetchThread(threadId, fetch).None?
  {
  }

  /** The total number of messages over a list of formatted threads. */
  function MessageCount(threads: seq<Value>): nat
    decreases |threads|
  {
    if |threads| == 0 then 0 else |MessagesOf(threads[0])| + MessageCount(threads[1..])
  }

  lemma {:induction false} MessageCountAppend(a: seq<Value>, b: seq<Value>)
    ensures MessageCount(a + b) == MessageCount(a) + MessageCount(b)
    decreases |a|
  {
    if |a| == 0 {
      assert a + b == b;
    } else {
      assert (a + b)[0] == a[0];
      assert (a + b)[1..] == a[1..] + b;
      MessageCountAppend(a[1..], b);
    }
  }

  /** The threads kept for a list of ids: the fetched ones, in id order. */
  function KeptThreads(ids: seq<string>, fetch: string -> Result<Value, string>): (threads: seq<Value>)
    ensures |threads| <= |ids|
  {
    Seqs.FlatMapShorter(ids, id => Seqs.OptionSeq(FetchThread(id, fetch)));
    Seqs.FlatMap(ids, id => Seqs.OptionSeq(FetchThread(id, fetch)))
  }

  /** Threads keep id order: the threads for a concatenation of ids are the concatenated threads. */
  lemma KeptThreadsAppend(a: seq<string>, b: seq<string>, fetch: string -> Result<Value, string>)
    ensures KeptThreads(a + b, fetch) == KeptThreads(a, fetch) + KeptThreads(b, fetch)
  {
    Seqs.FlatMapAppend(a, b, id => Seqs.OptionSeq(FetchThread(id, fetch)));
  }

  /** A thread that fails is simply left out; one that succeeds is kept as fetched. */
  lemma KeptThreadsOne(id: string, fetch: string -> Result<Value, string>)
    ensures KeptThreads([id], fetch) == Seqs.OptionSeq(FetchThread(id, fetch))
  {
    var f := id => Seqs.OptionSeq(FetchThread(id, fetch));
    assert [id][1..] == [];
    assert Seqs.FlatMap([id], f) == f(id) + Seqs.FlatMap([], f);
  }

  /**
   * `_get_thread_messages`: fetch the threads one by one, keeping the ones
   * that succeed and counting their messages as they are appended.
   */
  method GetThreadMessages(ids: seq<string>, fetch: string -> Result<Value, string>)
    returns (threads: seq<Value>, total: nat)
    ensures threads == KeptThreads(ids, fetch)
    ensures total == MessageCount(threads)
  {
    threads, total := [], 0;
    for i := 0 to |ids|
      invariant threads == KeptThreads(ids[..i], fetch)
      invariant total == MessageCount(threads)
    {
      var thread := FetchThread(ids[i], fetch);
      KeptThreadsAppend(ids[..i], [ids[i]], fetch);
      KeptThreadsOne(ids[i], fetch);
      assert ids[..i + 1] == ids[..i] + [ids[i]];
      if thread.Some? {
        MessageCountAppend(threads, [thread.value]);
        assert [thread.value][1..] == [];
        threads := threads + [thread.value];
        total := total + |MessagesOf(thread.value)|;
      }
    }
    assert ids[..|ids|] == ids;
  }

  /** `_create_empty_ticket_threads_response`: the ticket id exactly as the caller passed it, and no threads. */
  function EmptyTicketThreadsResponse(ticketId: Value): (r: Value)
    ensures Get(r, "ticket_id") == Some(ticketId)
    ensures Get(r, "threads") == Some(Arr([]))
    ensures Dumpable(r) <==> Dumpable(ticketId)
  {
    var fields := [("ticket_id", ticketId), ("threads", Arr([])), ("total_threads", Int(0)), ("total_messages", Int(0))];
    assert Get(Obj(fields), "threads") == Some(Arr([])) by { LookupFirst(fields, 1); }
    assert Dumpable(Obj(fields)) ==> Dumpable(fields[0].1);
    Obj(fields)
  }

  /** The response for the threads found: the id as passed, the converted threads and both counts. */
  function ThreadsResponse(ticketId: Value, threads: seq<Value>, total: nat): Value {
    Obj([("ticket_id", ticketId), ("threads", Formatters.ConvertDatetimeFields(Arr(threads))),
         ("total_threads", Int(|threads|)), ("total_messages", Int(total))])
  }

  /**
   * What `get_conversation_threads` answers, stated through the reference
   * definitions: the empty response when the association request raised or
   * listed no thread ids, otherwise the threads `KeptThreads` keeps and
   * their `MessageCount`.
   */
  function ConversationThreads(ticketId: Value, associated: Result<Value, string>,
                               fetch: string -> Result<Value, string>): Value {
    if associated.Failure? || |ExtractThreadIds(associated.value)| == 0 then EmptyTicketThreadsResponse(ticketId)
    else
      var threads := KeptThreads(ExtractThreadIds(associated.value), fetch);
      ThreadsResponse(ticketId, threads, MessageCount(threads))
  }

  /**
   * `get_conversation_threads`: `associated` is what the associations
   * request returned or raised, `fetch` the per-thread message request.
   * The id only enters the request URL, which `associated` stands for, and
   * the response, unchanged. Every exception inside is caught and answered
   * with the empty response; otherwise the counts agree with the threads
   * returned.
   */
  method GetConversationThreads(ticketId: Value, associated: Result<Value, string>,
                                fetch: string -> Result<Value, string>) returns (r: Value)
    ensures r == ConversationThreads(ticketId, associated, fetch)
  {
    match associated
    case Failure(_) =>
      r := EmptyTicketThreadsResponse(ticketId);
    case Success(assoc) =>
      var ids := ExtractThreadIds(assoc);
      if |ids| == 0 {
        r := EmptyTicketThreadsResponse(ticketId);
      } else {
        var threads, total := GetThreadMessages(ids, fetch);
        r := ThreadsResponse(ticketId, threads, total);
      }
  }

  /**
   * The answer's fields: the empty response when the association request
   * raised or listed no thread ids; otherwise the id as passed, and counts
   * that agree with the converted threads returned.
   */
  lemma ConversationThreadsFields(ticketId: Value, associated: Result<Value, string>,
                                  fetch: string -> Result<Value, string>)
    ensures var r := ConversationThreads(ticketId, associated, fetch);
      (associated.Failure? ==> r == EmptyTicketThreadsResponse(ticketId))
      && (associated.Success? && |ExtractThreadIds(associated.value)| == 0 ==> r == EmptyTicketThreadsResponse(ticketId))
      && (associated.Success? && |ExtractThreadIds(associated.value)| > 0 ==>
            var threads := KeptThreads(ExtractThreadIds(associated.value), fetch);
            Get(r, "ticket_id") == Some(ticketId)
            && Get(r, "total_threads") == Some(Int(|threads|))
            && Get(r, "total_messages") == Some(Int(MessageCount(threads)))
            && Get(r, "threads") == Some(Formatters.ConvertDatetimeFields(Arr(threads))))
  {
    if associated.Success? && |ExtractThreadIds(associated.value)| > 0 {
      var threads := KeptThreads(ExtractThreadIds(associated.value), fetch);
      ThreadsResponseFields(ticketId, threads, MessageCount(threads));
    }
  }

  lemma ThreadsResponseFields(ticketId: Value, threads: seq<Value>, total: nat)
    ensures var r := ThreadsResponse(ticketId, threads, total);
      Get(r, "ticket_id") == Some(ticketId)
      && Get(r, "threads") == Some(Formatters.ConvertDatetimeFields(Arr(threads)))
      && Get(r, "total_threads") == Some(Int(|threads|))
      && Get(r, "total_messages") == Some(Int(total))
  {
    var fs := ThreadsResponse(ticketId, threads, total).fields;
    LookupDistinct(fs, 0);
    LookupDistinct(fs, 1);
    LookupDistinct(fs, 2);
    LookupDistinct(fs, 3);
  }

  /** The client's answer can be serialised exactly when the ticket id it carries can. */
  lemma ConversationThreadsDumpable(ticketId: Value, associated: Result<Value, string>,
                                    fetch: string -> Result<Value, string>)
    ensures Dumpable(ConversationThreads(ticketId, associated, fetch)) <==> Dumpable(ticketId)
  {
    if associated.Success? && |ExtractThreadIds(associated.value)| > 0 {
      var threads := KeptThreads(ExtractThreadIds(associated.value), fetch);
      ThreadsResponseDumpable(ticketId, threads, MessageCount(threads));
    }
  }

  lemma ThreadsResponseDumpable(ticketId: Value, threads: seq<Value>, total: nat)
    ensures Dumpable(ThreadsResponse(ticketId, threads, total)) <==> Dumpable(ticketId)
  {
    var fs := ThreadsResponse(ticketId, threads, total).fields;
    assert fs[0].1 == ticketId;
    assert Dumpable(fs[1].1) && Dumpable(fs[2].1) && Dumpable(fs[3].1);
    if Dumpable(ticketId) {
      assert forall i :: 0 <= i < |fs| ==> Dumpable(fs[i].1);
    }
  }

  // ------------------------------------------------------------ get_tickets

  /**
   * `get_tickets`: build the filter groups and run the search with retries;
   * `api(request, n)` is what the `n`-th call does. Any exception becomes
   * the error text of `handle_hubspot_errors`.
   */
  method GetTickets(criteria: string, limit: int, maxRetries: int, retryDelay: real, oneDayAgo: string,
                    api: (SearchRequest, nat) -> Attempt, dumps: Ingest.Dumps)
    returns (r: Value, sleeps: seq<real>)
    ensures r.Obj? || r.Str?
    ensures criteria != "default" && criteria != "Closed" ==>
      r == ErrorHandler.ErrorText(InvalidCriteriaMessage(criteria), dumps) && sleeps == []
    ensures |sleeps| <= MaxSleeps(maxRetries)
    ensures (criteria == "default" || criteria == "Closed") ==>
      var request := SearchRequest(CreateFilterGroupsForCriteria(criteria, oneDayAgo).value, limit);
      (r.Obj? <==> api(request, |sleeps|).Response?)
      && (r.Obj? ==> r == TicketsResponse(api(request, |sleeps|).page))
      && (!api(request, |sleeps|).Response? ==>
            r == ErrorHandler.ErrorText(SearchFailureMessage(api(request, |sleeps|), maxRetries, retryDelay), dumps))
  {
    match CreateFilterGroupsForCriteria(criteria, oneDayAgo)
    case Failure(message) =>
      return ErrorHandler.ErrorText(message, dumps), [];
    case Success(groups) =>
      var request := SearchRequest(groups, limit);
      var result;
      result, sleeps := ExecuteTicketSearchWithRetry((n: nat) => api(request, n), maxRetries, retryDelay);
      match result
      case Success(response) => r := response;
      case Failure(message) => r := ErrorHandler.ErrorText(message, dumps);
  }
}
