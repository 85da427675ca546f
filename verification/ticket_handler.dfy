/**
 * The ticket tools: `get_tickets`, which checks its criteria before asking
 * the client, and `get_ticket_conversation_threads`, which turns failures
 * into an error envelope; both store what the client returned.
 */
module TicketHandler {
  import opened Wrappers
  import opened Json
  import opened FaissStore
  import Ingest
  import BaseHandler
  import TicketClient
  import ErrorHandler
  import Seqs

  // ------------------------------------------------------------ get_tickets

  const DefaultCriteria: string := "default"
  const DefaultTicketLimit: int := 50
  const DefaultMaxRetries: int := 3
  const DefaultRetryDelay: real := 1.0

  /** The converted arguments of `get_tickets`; the criteria are not yet checked. */
  datatype TicketsArguments = TicketsArguments(criteria: Value, limit: int, maxRetries: int, retryDelay: real)

  /**
   * The defaults and conversions, in source order: `limit`, then
   * `max_retries`, then `retry_delay`; the first conversion that raises
   * escapes the tool.
   */
  function TicketsArgumentsOf(args: Value): (r: Result<TicketsArguments, string>)
    ensures r.Success? <==>
      BaseHandler.IntArgument(args, "limit", DefaultTicketLimit).Success?
      && BaseHandler.IntArgument(args, "max_retries", DefaultMaxRetries).Success?
      && BaseHandler.FloatArgument(args, "retry_delay", DefaultRetryDelay).Success?
    ensures BaseHandler.IntArgument(args, "limit", DefaultTicketLimit).Failure? ==>
      r == Failure(BaseHandler.IntArgument(args, "limit", DefaultTicketLimit).error)
    ensures r.Success? ==>
      r.value.criteria == BaseHandler.GetArgumentWithDefault(args, "criteria", Str(DefaultCriteria))
      && r.value.limit == BaseHandler.IntArgument(args, "limit", DefaultTicketLimit).value
      && r.value.maxRetries == BaseHandler.IntArgument(args, "max_retries", DefaultMaxRetries).value
      && r.value.retryDelay == BaseHandler.FloatArgument(args, "retry_delay", DefaultRetryDelay).value
  {
    var criteria := BaseHandler.GetArgumentWithDefault(args, "criteria", Str(DefaultCriteria));
    match BaseHandler.IntArgument(args, "limit", DefaultTicketLimit)
    case Failure(e) => Failure(e)
    case Success(limit) =>
      match BaseHandler.IntArgument(args, "max_retries", DefaultMaxRetries)
      case Failure(e) => Failure(e)
      case Success(maxRetries) =>
        match BaseHandler.FloatArgument(args, "retry_delay", DefaultRetryDelay)
        case Failure(e) => Failure(e)
        case Success(retryDelay) => Success(TicketsArguments(criteria, limit, maxRetries, retryDelay))
  }

  /** Missing or `None` arguments, or none at all, give the documented defaults. */
  lemma TicketsDefaults(args: Value)
    requires !Truthy(args) || forall k :: k in ["criteria", "limit", "max_retries", "retry_delay"] ==> !Has(args, k)
    ensures TicketsArgumentsOf(args)
      == Success(TicketsArguments(Str(DefaultCriteria), DefaultTicketLimit, DefaultMaxRetries, DefaultRetryDelay))
  {
    if Truthy(args) {
      assert !Has(args, "criteria") && !Has(args, "limit") && !Has(args, "max_retries") && !Has(args, "retry_delay");
    }
  }

  /** `criteria in ["default", "Closed"]`: only those two strings, compared as values. */
  predicate ValidCriteria(criteria: Value) {
    criteria == Str("default") || criteria == Str("Closed")
  }

  const InvalidCriteriaKeys: seq<string> := ["error", "results", "pagination", "total"]

  lemma InvalidCriteriaKeysDistinct()
    ensures Distinct(InvalidCriteriaKeys)
  {
  }

  /** The envelope answered for unknown criteria, without asking the client. */
  function InvalidCriteriaResponse(criteria: Value): (r: Value)
    ensures r.Obj? && Keys(r.fields) == InvalidCriteriaKeys
    ensures Get(r, "error") == Some(Str(TicketClient.InvalidCriteriaMessage(PyStr(criteria))))
    ensures Get(r, "results") == Some(Arr([])) && Get(r, "total") == Some(Int(0))
  {
    var vs := [Str(TicketClient.InvalidCriteriaMessage(PyStr(criteria))), Arr([]),
               Obj([("next", Obj([("after", Null)]))]), Int(0)];
    InvalidCriteriaKeysDistinct();
    ZipKeys(InvalidCriteriaKeys, vs);
    LookupZip(InvalidCriteriaKeys, vs, 0);
    LookupZip(InvalidCriteriaKeys, vs, 1);
    LookupZip(InvalidCriteriaKeys, vs, 3);
    Obj(Zip(InvalidCriteriaKeys, vs))
  }

  /** The extras each stored ticket carries. */
  function TicketExtras(criteria: string, limit: int): Fields {
    Zip(TicketExtraKeys, [Str(criteria), Int(limit)])
  }

  const TicketExtraKeys: seq<string> := ["criteria", "limit"]

  lemma TicketExtraKeysDistinct()
    ensures Distinct(TicketExtraKeys) && "type" !in TicketExtraKeys && "data" !in TicketExtraKeys
  {
  }

  /**
   * What a store helper stores: the list under `key` (`results` for
   * tickets, `threads` for ticket threads), when it is truthy.
   */
  function StoredList(results: Value, key: string): (ts: seq<Value>)
    ensures |ts| > 0 ==> Truthy(GetOr(results, key, Arr([])))
  {
    var data := GetOr(results, key, Arr([]));
    if Truthy(data) then ListOf(data) else []
  }

  /**
   * `_store_tickets_in_faiss`: one store call for the whole list. An error
   * text from the client has no `get`, which raises and is swallowed.
   */
  function StoreTickets(s: State, today: string, results: Value, criteria: string, limit: int,
                        dumps: Ingest.Dumps, encode: Ingest.Encoder): (r: State)
    ensures !results.Obj? ==> r == s
    ensures |StoredList(results, "results")| == 0 ==> r == s
  {
    BaseHandler.StoreInFaissSafely(s, today, StoredList(results, "results"), "ticket", TicketExtras(criteria, limit), dumps, encode)
  }

  /**
   * With tickets the encoder can embed, each returned ticket is appended to
   * today's metadata, in order, as an envelope holding the ticket, the type
   * `ticket`, and the criteria and limit of the request.
   */
  lemma StoreTicketsAppends(s: State, today: string, results: Value, criteria: string, limit: int,
                            dumps: Ingest.Dumps, encode: Ingest.Encoder, k: nat)
    requires Inv(s.store) && AllDumpable(StoredList(results, "results")) && k < |StoredList(results, "results")|
    requires Ingest.EncodesWidth(encode, TodayBefore(s.store, today).dim)
    ensures var st' := StoreTickets(s, today, results, criteria, limit, dumps, encode).store;
      var before := TodayRecordsBefore(s.store, today);
      var ts := StoredList(results, "results");
      |TodayRecordsBefore(st', today)| == |before| + |ts|
      && TodayRecordsBefore(st', today)[..|before|] == before
      && Get(TodayRecordsBefore(st', today)[|before| + k], "data") == Some(ts[k])
      && Get(TodayRecordsBefore(st', today)[|before| + k], "type") == Some(Str("ticket"))
      && Get(TodayRecordsBefore(st', today)[|before| + k], "criteria") == Some(Str(criteria))
      && Get(TodayRecordsBefore(st', today)[|before| + k], "limit") == Some(Int(limit))
  {
    var ts := StoredList(results, "results");
    var extras := TicketExtras(criteria, limit);
    BaseHandler.StoreSafelyAppends(s, today, ts, "ticket", extras, dumps, encode);
    Seqs.AppendedAt(TodayRecordsBefore(s.store, today), Ingest.Records(ts, "ticket", extras), k);
    TicketRecordFields(ts[k], criteria, limit);
  }

  /** The envelope of one ticket reads back as the ticket, its type, and the request's criteria and limit. */
  lemma TicketRecordFields(ticket: Value, criteria: string, limit: int)
    ensures var e := Ingest.Envelope(ticket, "ticket", TicketExtras(criteria, limit));
      Get(e, "data") == Some(ticket) && Get(e, "type") == Some(Str("ticket"))
      && Get(e, "criteria") == Some(Str(criteria)) && Get(e, "limit") == Some(Int(limit))
  {
    var vs := [Str(criteria), Int(limit)];
    TicketExtraKeysDistinct();
    Ingest.EnvelopeItem(ticket, "ticket", TicketExtraKeys, vs);
    Ingest.EnvelopeExtra(ticket, "ticket", TicketExtraKeys, vs, 0);
    Ingest.EnvelopeExtra(ticket, "ticket", TicketExtraKeys, vs, 1);
  }

  /**
   * `get_tickets`. `oneDayAgo` and `api` stand for the clock and the search
   * endpoint the client uses; `sleeps` are the client's retry delays.
   */
  method GetTickets(args: Value, s: State, today: string, oneDayAgo: string,
                    api: (TicketClient.SearchRequest, nat) -> TicketClient.Attempt,
                    dumps: Ingest.Dumps, encode: Ingest.Encoder)
    returns (r: Result<seq<BaseHandler.TextContent>, string>, s': State, sleeps: seq<real>)
    ensures TicketsArgumentsOf(args).Failure? ==>
      r == Failure(TicketsArgumentsOf(args).error) && s' == s && sleeps == []
    ensures TicketsArgumentsOf(args).Success? && !ValidCriteria(TicketsArgumentsOf(args).value.criteria) ==>
      r == BaseHandler.CreateTextResponse(InvalidCriteriaResponse(TicketsArgumentsOf(args).value.criteria), dumps)
      && s' == s && sleeps == []
    ensures TicketsArgumentsOf(args).Success? && ValidCriteria(TicketsArgumentsOf(args).value.criteria) ==>
      var a := TicketsArgumentsOf(args).value;
      var request := TicketClient.SearchRequest(
        TicketClient.CreateFilterGroupsForCriteria(a.criteria.s, oneDayAgo).value, a.limit);
      |sleeps| <= TicketClient.MaxSleeps(a.maxRetries)
      && (api(request, |sleeps|).Response? ==>
            var results := TicketClient.TicketsResponse(api(request, |sleeps|).page);
            r == BaseHandler.CreateTextResponse(results, dumps)
            && s' == StoreTickets(s, today, results, a.criteria.s, a.limit, dumps, encode))
      && (!api(request, |sleeps|).Response? ==>
            var message := TicketClient.SearchFailureMessage(api(request, |sleeps|), a.maxRetries, a.retryDelay);
            r == BaseHandler.CreateTextResponse(ErrorHandler.ErrorText(message, dumps), dumps)
            && r.Success? && s' == s)
  {
    match TicketsArgumentsOf(args)
    case Failure(e) =>
      return Failure(e), s, [];
    case Success(a) =>
      if !ValidCriteria(a.criteria) {
        return BaseHandler.CreateTextResponse(InvalidCriteriaResponse(a.criteria), dumps), s, [];
      }
      var results;
      results, sleeps := TicketClient.GetTickets(a.criteria.s, a.limit, a.maxRetries, a.retryDelay, oneDayAgo, api, dumps);
      s' := StoreTickets(s, today, results, a.criteria.s, a.limit, dumps, encode);
      r := BaseHandler.CreateTextResponse(results, dumps);
  }

  // ------------------------------------------ get_ticket_conversation_threads

  const ThreadsErrorKeys: seq<string> := ["error", "ticket_id", "threads", "total_threads", "total_messages"]

  lemma ThreadsErrorKeysDistinct()
    ensures Distinct(ThreadsErrorKeys)
  {
  }

  /** The envelope answered when the threads cannot be had. */
  function ThreadsErrorResponse(error: string, ticketId: Value): (r: Value)
    ensures r.Obj? && Keys(r.fields) == ThreadsErrorKeys
    ensures Get(r, "error") == Some(Str(error)) && Get(r, "ticket_id") == Some(ticketId)
    ensures Get(r, "threads") == Some(Arr([]))
  {
    var vs := [Str(error), ticketId, Arr([]), Int(0), Int(0)];
    ThreadsErrorKeysDistinct();
    ZipKeys(ThreadsErrorKeys, vs);
    LookupZip(ThreadsErrorKeys, vs, 0);
    LookupZip(ThreadsErrorKeys, vs, 1);
    LookupZip(ThreadsErrorKeys, vs, 2);
    Obj(Zip(ThreadsErrorKeys, vs))
  }

  /** The extras each stored ticket thread carries: the ticket and the response's counts (default 0). */
  function TicketThreadExtras(results: Value, ticketId: Value): Fields {
    Zip(TicketThreadExtraKeys, TicketThreadExtraValues(results, ticketId))
  }

  const TicketThreadExtraKeys: seq<string> := ["ticket_id", "total_threads", "total_messages"]

  function TicketThreadExtraValues(results: Value, ticketId: Value): (vs: seq<Value>)
    ensures |vs| == |TicketThreadExtraKeys|
  {
    [ticketId, GetOr(results, "total_threads", Int(0)), GetOr(results, "total_messages", Int(0))]
  }

  lemma TicketThreadExtraKeysDistinct()
    ensures Distinct(TicketThreadExtraKeys) && "type" !in TicketThreadExtraKeys && "data" !in TicketThreadExtraKeys
  {
  }

  /** `_store_ticket_threads_in_faiss`: one store call for the whole thread list. */
  function StoreTicketThreads(s: State, today: string, results: Value, ticketId: Value,
                              dumps: Ingest.Dumps, encode: Ingest.Encoder): (r: State)
    ensures |StoredList(results, "threads")| == 0 ==> r == s
  {
    BaseHandler.StoreInFaissSafely(s, today, StoredList(results, "threads"), "ticket_conversation_thread",
                                   TicketThreadExtras(results, ticketId), dumps, encode)
  }

  /**
   * With threads the encoder can embed, each returned thread is appended to
   * today's metadata, in order, as an envelope holding the thread, its
   * type, the ticket id as given and the response's thread count.
   */
  lemma StoreTicketThreadsAppends(s: State, today: string, results: Value, ticketId: Value,
                                  dumps: Ingest.Dumps, encode: Ingest.Encoder, k: nat)
    requires Inv(s.store) && AllDumpable(StoredList(results, "threads")) && k < |StoredList(results, "threads")|
    requires Ingest.EncodesWidth(encode, TodayBefore(s.store, today).dim)
    ensures var st' := StoreTicketThreads(s, today, results, ticketId, dumps, encode).store;
      var before := TodayRecordsBefore(s.store, today);
      var ts := StoredList(results, "threads");
      |TodayRecordsBefore(st', today)| == |before| + |ts|
      && TodayRecordsBefore(st', today)[..|before|] == before
      && Get(TodayRecordsBefore(st', today)[|before| + k], "data") == Some(ts[k])
      && Get(TodayRecordsBefore(st', today)[|before| + k], "type") == Some(Str("ticket_conversation_thread"))
      && Get(TodayRecordsBefore(st', today)[|before| + k], "ticket_id") == Some(ticketId)
      && Get(TodayRecordsBefore(st', today)[|before| + k], "total_threads")
         == Some(GetOr(results, "total_threads", Int(0)))
  {
    var ts := StoredList(results, "threads");
    var extras := TicketThreadExtras(results, ticketId);
    BaseHandler.StoreSafelyAppends(s, today, ts, "ticket_conversation_thread", extras, dumps, encode);
    var before := TodayRecordsBefore(s.store, today);
    var recs := Ingest.Records(ts, "ticket_conversation_thread", extras);
    Seqs.AppendedAt(before, recs, k);
    TicketThreadRecordFields(ts[k], results, ticketId);
  }

  /** The envelope of one ticket thread reads back as the thread, its type, the ticket id and the thread count. */
  lemma TicketThreadRecordFields(thread: Value, results: Value, ticketId: Value)
    ensures var e := Ingest.Envelope(thread, "ticket_conversation_thread", TicketThreadExtras(results, ticketId));
      Get(e, "data") == Some(thread)
      && Get(e, "type") == Some(Str("ticket_conversation_thread"))
      && Get(e, "ticket_id") == Some(ticketId)
      && Get(e, "total_threads") == Some(GetOr(results, "total_threads", Int(0)))
  {
    var vs := TicketThreadExtraValues(results, ticketId);
    TicketThreadExtraKeysDistinct();
    Ingest.EnvelopeItem(thread, "ticket_conversation_thread", TicketThreadExtraKeys, vs);
    Ingest.EnvelopeExtra(thread, "ticket_conversation_thread", TicketThreadExtraKeys, vs, 0);
    Ingest.EnvelopeExtra(thread, "ticket_conversation_thread", TicketThreadExtraKeys, vs, 1);
  }

  /**
   * `get_ticket_conversation_threads`. Missing arguments raise before the
   * guarded block. The client receives `arguments["ticket_id"]` as it is;
   * `associated` and `fetch` stand for its requests. The threads are
   * stored, and a response that cannot be serialised is replaced by the
   * error envelope.
   */
  method GetTicketConversationThreads(args: Value, s: State, today: string, associated: Result<Value, string>,
                                      fetch: string -> Result<Value, string>,
                                      dumps: Ingest.Dumps, encode: Ingest.Encoder)
    returns (r: Result<seq<BaseHandler.TextContent>, string>, s': State)
    ensures BaseHandler.ValidateRequiredArguments(args, ["ticket_id"]).Failure? ==>
      r == Failure(BaseHandler.ValidateRequiredArguments(args, ["ticket_id"]).error) && s' == s
    ensures BaseHandler.ValidateRequiredArguments(args, ["ticket_id"]).Success? ==>
      var ticketId := Get(args, "ticket_id").value;
      var results := TicketClient.ConversationThreads(ticketId, associated, fetch);
      s' == StoreTicketThreads(s, today, results, ticketId, dumps, encode)
      && (associated.Failure? ==> s' == s)
      && (Dumpable(ticketId) ==> r == BaseHandler.CreateTextResponse(results, dumps) && r.Success?)
      && (!Dumpable(ticketId) ==> r == BaseHandler.CreateTextResponse(ThreadsErrorResponse(
            "TypeError: Object of type datetime is not JSON serializable", ticketId), dumps) && r.Failure?)
  {
    match BaseHandler.ValidateRequiredArguments(args, ["ticket_id"])
    case Failure(e) =>
      return Failure(e), s;
    case Success(_) =>
      var ticketId := Get(args, "ticket_id").value;
      var results := TicketClient.GetConversationThreads(ticketId, associated, fetch);
      TicketClient.ConversationThreadsDumpable(ticketId, associated, fetch);
      s' := StoreTicketThreads(s, today, results, ticketId, dumps, encode);
      if associated.Failure? {
        EmptyThreadsStoreNothing(s, today, ticketId, dumps, encode);
      }
      r := BaseHandler.CreateTextResponse(results, dumps);
      if r.Failure? {
        var e := r.error;
        ThreadsErrorNotDumpable(e, ticketId);
        r := BaseHandler.CreateTextResponse(ThreadsErrorResponse(e, ticketId), dumps);
      }
  }

  /** The client's empty response stores nothing. */
  lemma EmptyThreadsStoreNothing(s: State, today: string, ticketId: Value, dumps: Ingest.Dumps, encode: Ingest.Encoder)
    ensures StoreTicketThreads(s, today, TicketClient.EmptyTicketThreadsResponse(ticketId), ticketId, dumps, encode) == s
  {
    assert StoredList(TicketClient.EmptyTicketThreadsResponse(ticketId), "threads") == [];
  }

  /** The error envelope holds the ticket id, so it cannot be serialised when the id cannot. */
  lemma ThreadsErrorNotDumpable(error: string, ticketId: Value)
    requires !Dumpable(ticketId)
    ensures !Dumpable(ThreadsErrorResponse(error, ticketId))
  {
    var r := ThreadsErrorResponse(error, ticketId);
    var k :| 0 <= k < |r.fields| && r.fields[k] == ("ticket_id", ticketId);
  }
}
