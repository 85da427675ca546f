/**
 * The conversation client's reshaping logic: recent emails fetched in
 * batches of ten, and recent conversation threads read from the thread
 * cache or fetched page by page, each with its formatted messages.
 */
module ConversationClient {
  import opened Wrappers
  import opened Json
  import Seqs
  import Formatters
  import TicketClient
  import ErrorHandler
  import Ingest

  /** What one SDK call does: return a value, raise `ApiException`, or raise anything else. */
  datatype Call<T> =
    | Returned(value: T)
    | ApiException(message: string)
    | Raised(message: string)

  /** `v.get(outer, {}).get(inner, {}).get(key)`. */
  function NestedGet(v: Value, outer: string, inner: string, key: string): Value {
    GetOrNull(GetOr(GetOr(v, outer, Obj([])), inner, Obj([])), key)
  }

  /** The `{"results": ..., "pagination": {"next": {"after": ...}}}` shape both listings answer with. */
  function Listing(results: Value, after: Value): (r: Value)
    ensures Get(r, "results") == Some(results)
    ensures NestedGet(r, "pagination", "next", "after") == after
  {
    var next := [("after", after)];
    var pagination := [("next", Obj(next))];
    var fs := [("results", results), ("pagination", Obj(pagination))];
    assert fs[1..] == [fs[1]];
    Obj(fs)
  }

  // ----------------------------------------------------------------- emails

  /** One page of the emails API: the email ids, and `paging.next.after` when the page has it. */
  datatype EmailPage = EmailPage(ids: seq<string>, after: Option<Value>)

  /** `_extract_pagination_token`: the token when present, else `None`. */
  function PaginationToken(page: EmailPage): Value {
    page.after.GetOr(Null)
  }

  /** `_create_empty_email_response`: no results, the page's token kept. */
  function EmptyEmailResponse(page: EmailPage): (r: Value)
    ensures Get(r, "results") == Some(Arr([]))
    ensures NestedGet(r, "pagination", "next", "after") == PaginationToken(page)
  {
    Listing(Arr([]), PaginationToken(page))
  }

  /** The HubSpot batch-read limit. */
  const BatchSize: nat := 10

  /** `[ids[i:i+size] for i in range(0, len(ids), size)]`. */
  function Batches(ids: seq<string>, size: nat): (bs: seq<seq<string>>)
    requires size > 0
    ensures forall i :: 0 <= i < |bs| ==> 0 < |bs[i]| <= size
    ensures |bs| == 0 <==> |ids| == 0
    decreases |ids|
  {
    if |ids| == 0 then []
    else if |ids| <= size then [ids]
    else [ids[..size]] + Batches(ids[size..], size)
  }

  /** The batches from position `i` on: the slice `ids[i:i+size]` and then the rest. */
  lemma BatchesFrom(ids: seq<string>, i: nat, size: nat)
    requires size > 0 && i < |ids|
    ensures var end := if i + size < |ids| then i + size else |ids|;
      Batches(ids[i..], size) == [ids[i..end]] + Batches(ids[end..], size)
  {
    var end := if i + size < |ids| then i + size else |ids|;
    if i + size < |ids| {
      assert ids[i..][..size] == ids[i..end];
      assert ids[i..][size..] == ids[end..];
    } else {
      assert ids[i..] == ids[i..end];
      assert ids[end..] == [];
    }
  }

  /** The batches cover every id once, in order, and only the last may hold fewer than `size`. */
  lemma {:induction false} BatchesCover(ids: seq<string>, size: nat)
    requires size > 0
    ensures Seqs.FlatMap(Batches(ids, size), b => b) == ids
    ensures forall i :: 0 <= i < |Batches(ids, size)| - 1 ==> |Batches(ids, size)[i]| == size
    decreases |ids|
  {
    var bs := Batches(ids, size);
    if |ids| > size {
      BatchesCover(ids[size..], size);
      assert bs[0] == ids[..size] && bs[1..] == Batches(ids[size..], size);
      assert ids == ids[..size] + ids[size..];
    } else if |ids| > 0 {
      Seqs.FlatMapOne(ids, b => b);
    }
  }

  /** The keys of a formatted email, in order. */
  const EmailKeys: seq<string> := ["id", "created_at", "updated_at", "subject", "from", "to", "cc", "bcc", "body"]

  lemma EmailKeysDistinct()
    ensures Distinct(EmailKeys)
  {
  }

  /** `_format_email_batch` for one email's `to_dict()`; `body` is the text, or the HTML when the text is empty. */
  function FormatEmail(email: Value): Value {
    Obj(Zip(EmailKeys, EmailValues(email)))
  }

  /** The values of a formatted email, in key order. */
  function EmailValues(email: Value): (vs: seq<Value>)
    ensures |vs| == |EmailKeys|
  {
    var props := GetOr(email, "properties", Obj([]));
    [GetOrNull(email, "id"), GetOrNull(props, "createdAt"), GetOrNull(props, "updatedAt"),
     GetOr(props, "subject", Str("")), GetOr(props, "hs_email_from", Str("")), GetOr(props, "hs_email_to", Str("")),
     GetOr(props, "hs_email_cc", Str("")), GetOr(props, "hs_email_bcc", Str("")),
     Or(GetOr(props, "hs_email_text", Str("")), GetOr(props, "hs_email_html", Str("")))]
  }

  /** The fixed keys of a formatted email, and the body rule. */
  lemma FormatEmailFields(email: Value)
    ensures var r := FormatEmail(email);
      var props := GetOr(email, "properties", Obj([]));
      var text := GetOr(props, "hs_email_text", Str(""));
      r.Obj?
      && Keys(r.fields) == EmailKeys
      && Get(r, "id") == Some(GetOrNull(email, "id"))
      && Get(r, "subject") == Some(GetOr(props, "subject", Str("")))
      && (Truthy(text) ==> Get(r, "body") == Some(text))
      && (!Truthy(text) ==> Get(r, "body") == Some(GetOr(props, "hs_email_html", Str(""))))
  {
    var vs := EmailValues(email);
    EmailKeysDistinct();
    ZipKeys(EmailKeys, vs);
    LookupZip(EmailKeys, vs, 0);
    LookupZip(EmailKeys, vs, 3);
    LookupZip(EmailKeys, vs, 8);
  }

  /** `_format_email_batch`: one formatted email per result, in order. */
  function FormatEmailBatch(results: seq<Value>): (emails: seq<Value>)
    ensures |emails| == |results|
    ensures forall i :: 0 <= i < |results| ==> emails[i] == FormatEmail(results[i])
  {
    seq(|results|, i requires 0 <= i < |results| => FormatEmail(results[i]))
  }

  /** What a batch contributes: its formatted emails, or nothing when the read raised `ApiException`. */
  function BatchEmails(batch: seq<string>, readBatch: seq<string> -> Call<seq<Value>>): seq<Value> {
    match readBatch(batch)
    case Returned(results) => FormatEmailBatch(results)
    case ApiException(_) => []
    case Raised(_) => []
  }

  /** The emails a sequence of batches contributes, batch by batch in order. */
  function BatchesEmails(bs: seq<seq<string>>, readBatch: seq<string> -> Call<seq<Value>>): seq<Value> {
    Seqs.FlatMap(bs, b => BatchEmails(b, readBatch))
  }

  lemma BatchesEmailsSnoc(bs: seq<seq<string>>, b: seq<string>, readBatch: seq<string> -> Call<seq<Value>>)
    ensures BatchesEmails(bs + [b], readBatch) == BatchesEmails(bs, readBatch) + BatchEmails(b, readBatch)
  {
    Seqs.FlatMapAppend(bs, [b], b => BatchEmails(b, readBatch));
    Seqs.FlatMapOne(b, b => BatchEmails(b, readBatch));
  }

  /**
   * `_get_email_details`: read the ids ten at a time; a batch that raises
   * `ApiException` is logged and skipped and the later batches still run,
   * while any other exception escapes. The emails are then converted.
   */
  method GetEmailDetails(ids: seq<string>, readBatch: seq<string> -> Call<seq<Value>>)
    returns (r: Result<Value, string>)
    ensures r.Success? <==> forall k :: 0 <= k < |Batches(ids, BatchSize)| ==> !readBatch(Batches(ids, BatchSize)[k]).Raised?
    ensures r.Success? ==>
      r.value == Formatters.ConvertDatetimeFields(Arr(BatchesEmails(Batches(ids, BatchSize), readBatch)))
    ensures r.Failure? ==>
      exists k :: 0 <= k < |Batches(ids, BatchSize)| && readBatch(Batches(ids, BatchSize)[k]) == Raised(r.error)
        && forall j :: 0 <= j < k ==> !readBatch(Batches(ids, BatchSize)[j]).Raised?
  {
    var formatted: seq<Value> := [];
    ghost var done: seq<seq<string>> := [];
    var i := 0;
    while i < |ids|
      invariant 0 <= i <= |ids|
      invariant Batches(ids, BatchSize) == done + Batches(ids[i..], BatchSize)
      invariant formatted == BatchesEmails(done, readBatch)
      invariant forall k :: 0 <= k < |done| ==> !readBatch(done[k]).Raised?
      decreases |ids| - i
    {
      var end := if i + BatchSize < |ids| then i + BatchSize else |ids|;
      var batch := ids[i..end];
      NextBatch(ids, i, BatchSize, done);
      if readBatch(batch).Raised? {
        assert Batches(ids, BatchSize)[|done|] == batch;
        assert forall j :: 0 <= j < |done| ==> Batches(ids, BatchSize)[j] == done[j];
        return Failure(readBatch(batch).message);
      }
      BatchesEmailsSnoc(done, batch, readBatch);
      formatted := formatted + BatchEmails(batch, readBatch);
      done := done + [batch];
      i := end;
    }
    assert ids[i..] == [];
    assert done == Batches(ids, BatchSize);
    r := Success(Formatters.ConvertDatetimeFields(Arr(formatted)));
  }

  /** Taking the slice at `i` moves one batch from the remaining ones to the done ones. */
  lemma NextBatch(ids: seq<string>, i: nat, size: nat, done: seq<seq<string>>)
    requires size > 0 && i < |ids|
    requires Batches(ids, size) == done + Batches(ids[i..], size)
    ensures var end := if i + size < |ids| then i + size else |ids|;
      Batches(ids, size) == (done + [ids[i..end]]) + Batches(ids[end..], size)
  {
    BatchesFrom(ids, i, size);
  }

  /**
   * `get_recent_emails` under `handle_hubspot_errors`: `page` is what the
   * page request did and `readBatch` what each batch read does. No ids
   * gives the empty response with the page's token; any escaping exception
   * gives the error text.
   */
  method GetRecentEmails(page: Call<EmailPage>, readBatch: seq<string> -> Call<seq<Value>>, dumps: Ingest.Dumps)
    returns (r: Value)
    ensures !page.Returned? ==> r == ErrorHandler.ErrorText(page.message, dumps)
    ensures page.Returned? && |page.value.ids| == 0 ==> r == EmptyEmailResponse(page.value)
    ensures page.Returned? && |page.value.ids| > 0 ==>
      var bs := Batches(page.value.ids, BatchSize);
      (r.Obj? <==> forall k :: 0 <= k < |bs| ==> !readBatch(bs[k]).Raised?)
      && (r.Obj? ==>
            NestedGet(r, "pagination", "next", "after") == PaginationToken(page.value)
            && Get(r, "results") == Some(Formatters.ConvertDatetimeFields(Arr(BatchesEmails(bs, readBatch)))))
      && (!r.Obj? ==>
            exists k :: 0 <= k < |bs| && readBatch(bs[k]).Raised?
              && r == ErrorHandler.ErrorText(readBatch(bs[k]).message, dumps)
              && forall j :: 0 <= j < k ==> !readBatch(bs[j]).Raised?)
  {
    match page
    case ApiException(message) =>
      r := ErrorHandler.ErrorText(message, dumps);
    case Raised(message) =>
      r := ErrorHandler.ErrorText(message, dumps);
    case Returned(p) =>
      if |p.ids| == 0 {
        r := EmptyEmailResponse(p);
      } else {
        var details := GetEmailDetails(p.ids, readBatch);
        match details
        case Failure(message) =>
          r := ErrorHandler.ErrorText(message, dumps);
        case Success(emails) =>
          r := Listing(emails, PaginationToken(p));
      }
  }

  // ---------------------------------------------------------------- threads

  /** The thread data used for a call, the thread cache afterwards, and whether the API was asked. */
  datatype ThreadsData = ThreadsData(data: Value, cache: Value, fetched: bool)

  /** The cache serves a call that does not force a refresh, asks for the first page, and finds cached results. */
  predicate UseCache(refreshCache: bool, after: Value, cache: Value) {
    !refreshCache && !Truthy(after) && Truthy(GetOrNull(cache, "results"))
  }

  /**
   * `_get_threads_data`: `fetched` is what the page request returned or
   * raised. A fetched first page replaces the cache; a later page leaves it.
   */
  function GetThreadsData(after: Value, refreshCache: bool, cache: Value, fetched: Result<Value, string>)
    : (r: Result<ThreadsData, string>)
    ensures UseCache(refreshCache, after, cache) ==> r == Success(ThreadsData(cache, cache, false))
    ensures !UseCache(refreshCache, after, cache) ==> (r.Success? <==> fetched.Success?)
    ensures r.Success? && !UseCache(refreshCache, after, cache) ==> r.value.data == fetched.value && r.value.fetched
  {
    if UseCache(refreshCache, after, cache) then Success(ThreadsData(cache, cache, false))
    else match fetched
      case Failure(message) => Failure(message)
      case Success(response) =>
        Success(ThreadsData(response, if !Truthy(after) then response else cache, true))
  }

  /** The cache is replaced exactly when a first page is fetched, and then by that page. */
  lemma CacheReplacedOnlyOnFirstPage(after: Value, refreshCache: bool, cache: Value, fetched: Result<Value, string>)
    requires GetThreadsData(after, refreshCache, cache, fetched).Success?
    ensures var t := GetThreadsData(after, refreshCache, cache, fetched).value;
      (Truthy(after) ==> t.cache == cache)
      && (!Truthy(after) && t.fetched ==> t.cache == t.data)
      && (t.cache != cache ==> t.fetched && !Truthy(after))
  {
  }

  /**
   * A fetched first page with results is what the next first-page call
   * without refresh reads back, without asking the API again.
   */
  lemma CacheRoundTrip(refreshCache: bool, cache: Value, fetched: Result<Value, string>, again: Result<Value, string>)
    requires GetThreadsData(Null, refreshCache, cache, fetched).Success?
    requires GetThreadsData(Null, refreshCache, cache, fetched).value.fetched
    requires Truthy(GetOrNull(fetched.value, "results"))
    ensures var t := GetThreadsData(Null, refreshCache, cache, fetched).value;
      GetThreadsData(Null, false, t.cache, again) == Success(ThreadsData(fetched.value, fetched.value, false))
  {
  }

  /** `_create_empty_threads_response`: no results, the data's `paging.next.after` kept. */
  function EmptyThreadsResponse(data: Value): (r: Value)
    ensures Get(r, "results") == Some(Arr([]))
    ensures NestedGet(r, "pagination", "next", "after") == NestedGet(data, "paging", "next", "after")
  {
    Listing(Arr([]), NestedGet(data, "paging", "next", "after"))
  }

  /** A party whose `deliveryIdentifier.type` is `HS_EMAIL_ADDRESS`. */
  predicate EmailIdentified(party: Value) {
    GetOrNull(GetOr(party, "deliveryIdentifier", Obj([])), "type") == Str("HS_EMAIL_ADDRESS")
  }

  /** The address of such a party: `deliveryIdentifier.value`, default `""`. */
  function EmailAddress(party: Value): Value {
    GetOr(GetOr(party, "deliveryIdentifier", Obj([])), "value", Str(""))
  }

  /** The senders of a message; a missing, empty or non-list `senders` gives none. */
  function Senders(msg: Value): seq<Value> {
    ListOf(GetOrNull(msg, "senders"))
  }

  /** The keys of the sender info, in order. */
  const SenderKeys: seq<string> := ["actor_id", "name", "sender_field", "email"]

  lemma SenderKeysDistinct()
    ensures Distinct(SenderKeys)
  {
  }

  /** The values of the sender info for one sender, in key order. */
  function SenderValues(sender: Value): (vs: seq<Value>)
    ensures |vs| == |SenderKeys|
  {
    [GetOr(sender, "actorId", Str("")), GetOr(sender, "name", Str("")), GetOr(sender, "senderField", Str("")),
     if EmailIdentified(sender) then EmailAddress(sender) else Str("")]
  }

  /** `_extract_sender_info`: `{}` without senders, else the first sender's fields. */
  function ExtractSenderInfo(msg: Value): (r: Value)
    ensures |Senders(msg)| == 0 <==> r == Obj([])
  {
    if |Senders(msg)| == 0 then Obj([])
    else Obj(Zip(SenderKeys, SenderValues(Senders(msg)[0])))
  }

  /** The sender's email is filled only for an email-address identity, and is `""` otherwise. */
  lemma SenderEmail(msg: Value)
    requires |Senders(msg)| > 0
    ensures var sender := Senders(msg)[0];
      var r := ExtractSenderInfo(msg);
      Get(r, "actor_id") == Some(GetOr(sender, "actorId", Str("")))
      && (EmailIdentified(sender) ==> Get(r, "email") == Some(EmailAddress(sender)))
      && (!EmailIdentified(sender) ==> Get(r, "email") == Some(Str("")))
  {
    var vs := SenderValues(Senders(msg)[0]);
    SenderKeysDistinct();
    LookupZip(SenderKeys, vs, 0);
    LookupZip(SenderKeys, vs, 3);
  }

  function RecipientInfo(recipient: Value): Value {
    Obj([("recipient_field", GetOr(recipient, "recipientField", Str(""))), ("email", EmailAddress(recipient))])
  }

  /** The entry one recipient contributes: its info when it has an email identity, else nothing. */
  function RecipientEntry(recipient: Value): seq<Value> {
    if EmailIdentified(recipient) then [RecipientInfo(recipient)] else []
  }

  /** `_extract_recipients_info` over the recipient list. */
  function RecipientsInfo(recipients: seq<Value>): (infos: seq<Value>)
    ensures |infos| <= |recipients|
  {
    Seqs.FlatMapShorter(recipients, RecipientEntry);
    Seqs.FlatMap(recipients, RecipientEntry)
  }

  function ExtractRecipientsInfo(msg: Value): seq<Value> {
    RecipientsInfo(ListOf(GetOr(msg, "recipients", Arr([]))))
  }

  /** Exactly the email-identified recipients appear. */
  lemma RecipientsMembers(recipients: seq<Value>, info: Value)
    ensures info in RecipientsInfo(recipients) <==>
      exists r :: r in recipients && EmailIdentified(r) && info == RecipientInfo(r)
  {
    Seqs.FlatMapMembers(recipients, RecipientEntry, info);
    if info in RecipientsInfo(recipients) {
      var r :| r in recipients && info in RecipientEntry(r);
      assert EmailIdentified(r) && info == RecipientInfo(r);
    }
    if exists r :: r in recipients && EmailIdentified(r) && info == RecipientInfo(r) {
      var r :| r in recipients && EmailIdentified(r) && info == RecipientInfo(r);
      assert info in RecipientEntry(r);
    }
  }

  /** Filtering keeps order: the recipients of a concatenation are the concatenated recipients. */
  lemma RecipientsAppend(a: seq<Value>, b: seq<Value>)
    ensures RecipientsInfo(a + b) == RecipientsInfo(a) + RecipientsInfo(b)
  {
    Seqs.FlatMapAppend(a, b, RecipientEntry);
  }

  /** `_format_message` of the conversation client. */
  function FormatMessage(msg: Value): Value {
    Obj([("id", GetOrNull(msg, "id")),
         ("created_at", GetOrNull(msg, "createdAt")),
         ("updated_at", GetOrNull(msg, "updatedAt")),
         ("sender", ExtractSenderInfo(msg)),
         ("recipients", Arr(ExtractRecipientsInfo(msg))),
         ("subject", GetOr(msg, "subject", Str(""))),
         ("text", GetOr(msg, "text", Str(""))),
         ("rich_text", GetOr(msg, "richText", Str(""))),
         ("status", GetOr(GetOr(msg, "status", Obj([])), "statusType", Str(""))),
         ("direction", GetOr(msg, "direction", Str(""))),
         ("channel_id", GetOr(msg, "channelId", Str(""))),
         ("channel_account_id", GetOr(msg, "channelAccountId", Str("")))])
  }

  /** The keys of a formatted thread, in order. */
  const ThreadKeys: seq<string> := ["id", "created_at", "status", "inbox_id", "associated_contact_id", "spam", "archived",
                                    "assigned_to", "latest_message_timestamp", "messages"]

  lemma ThreadKeysDistinct()
    ensures Distinct(ThreadKeys)
  {
  }

  /** `_format_thread`: the thread's fields with `spam` and `archived` defaulting to `False`, and its messages formatted in order. */
  function FormatThread(thread: Value, messages: seq<Value>): Value {
    Obj(Zip(ThreadKeys, ThreadValues(thread, messages)))
  }

  /** The values of a formatted thread, in key order. */
  function ThreadValues(thread: Value, messages: seq<Value>): (vs: seq<Value>)
    ensures |vs| == |ThreadKeys|
  {
    [GetOrNull(thread, "id"), GetOrNull(thread, "createdAt"), GetOrNull(thread, "status"),
     GetOrNull(thread, "inboxId"), GetOrNull(thread, "associatedContactId"),
     GetOr(thread, "spam", Bool(false)), GetOr(thread, "archived", Bool(false)),
     GetOrNull(thread, "assignedTo"), GetOrNull(thread, "latestMessageTimestamp"),
     Arr(FormatMessages(messages))]
  }

  function FormatMessages(messages: seq<Value>): (r: seq<Value>)
    ensures |r| == |messages|
    ensures forall i :: 0 <= i < |messages| ==> r[i] == FormatMessage(messages[i])
  {
    seq(|messages|, i requires 0 <= i < |messages| => FormatMessage(messages[i]))
  }

  /** A formatted thread keeps the thread's id. */
  lemma FormatThreadId(thread: Value, messages: seq<Value>)
    ensures Get(FormatThread(thread, messages), "id") == Some(GetOrNull(thread, "id"))
  {
    ThreadKeysDistinct();
    LookupZip(ThreadKeys, ThreadValues(thread, messages), 0);
  }

  /** `spam` and `archived` read as `thread.get(key, False)`. */
  lemma FormatThreadFlags(thread: Value, messages: seq<Value>)
    ensures Get(FormatThread(thread, messages), "spam") == Some(GetOr(thread, "spam", Bool(false)))
    ensures Get(FormatThread(thread, messages), "archived") == Some(GetOr(thread, "archived", Bool(false)))
  {
    ThreadKeysDistinct();
    LookupZip(ThreadKeys, ThreadValues(thread, messages), 5);
    LookupZip(ThreadKeys, ThreadValues(thread, messages), 6);
  }

  /** A formatted thread holds one formatted message per given message, in order. */
  lemma FormatThreadMessages(thread: Value, messages: seq<Value>)
    ensures Get(FormatThread(thread, messages), "messages") == Some(Arr(FormatMessages(messages)))
  {
    ThreadKeysDistinct();
    LookupZip(ThreadKeys, ThreadValues(thread, messages), 9);
  }

  /**
   * What one listed thread contributes to `_get_thread_messages`: nothing
   * when its id is falsy or its message fetch raised, else the thread
   * formatted with its `MESSAGE` entries.
   */
  function ThreadEntry(thread: Value, fetch: Value -> Result<Value, string>): (r: seq<Value>)
    ensures |r| <= 1
  {
    var id := GetOrNull(thread, "id");
    if !Truthy(id) then []
    else match fetch(id)
      case Failure(_) => []
      case Success(response) =>
        [FormatThread(thread, TicketClient.ActualMessages(ListOf(GetOr(response, "results", Arr([])))))]
  }

  /** `_get_thread_messages`. */
  function GetThreadMessages(threads: seq<Value>, fetch: Value -> Result<Value, string>): (r: seq<Value>)
    ensures |r| <= |threads|
  {
    Seqs.FlatMapShorter(threads, t => ThreadEntry(t, fetch));
    Seqs.FlatMap(threads, t => ThreadEntry(t, fetch))
  }

  /**
   * A thread is returned exactly when some listed thread has a truthy id
   * whose fetch succeeded, and it is that thread with its messages.
   */
  lemma GetThreadMessagesMembers(threads: seq<Value>, fetch: Value -> Result<Value, string>, t: Value)
    ensures t in GetThreadMessages(threads, fetch) <==>
      exists th :: th in threads && Truthy(GetOrNull(th, "id")) && fetch(GetOrNull(th, "id")).Success?
        && t == FormatThread(th, TicketClient.ActualMessages(ListOf(GetOr(fetch(GetOrNull(th, "id")).value, "results", Arr([])))))
  {
    var f := th => ThreadEntry(th, fetch);
    Seqs.FlatMapMembers(threads, f, t);
    if t in GetThreadMessages(threads, fetch) {
      var th :| th in threads && t in f(th);
    }
    if exists th :: th in threads && Truthy(GetOrNull(th, "id")) && fetch(GetOrNull(th, "id")).Success?
        && t == FormatThread(th, TicketClient.ActualMessages(ListOf(GetOr(fetch(GetOrNull(th, "id")).value, "results", Arr([]))))) {
      var th :| th in threads && Truthy(GetOrNull(th, "id")) && fetch(GetOrNull(th, "id")).Success?
        && t == FormatThread(th, TicketClient.ActualMessages(ListOf(GetOr(fetch(GetOrNull(th, "id")).value, "results", Arr([])))));
      assert t in f(th);
    }
  }

  /** Threads keep listing order, and a thread that fails drops only itself. */
  lemma GetThreadMessagesAppend(a: seq<Value>, b: seq<Value>, fetch: Value -> Result<Value, string>)
    ensures GetThreadMessages(a + b, fetch) == GetThreadMessages(a, fetch) + GetThreadMessages(b, fetch)
  {
    Seqs.FlatMapAppend(a, b, t => ThreadEntry(t, fetch));
  }

  /**
   * `get_recent_threads` under `handle_hubspot_errors`, returning the
   * response and the thread cache afterwards. `fetched` is what the page
   * request did, `fetch` the per-thread message request.
   */
  function GetRecentThreads(after: Value, refreshCache: bool, cache: Value, fetched: Result<Value, string>,
                            fetch: Value -> Result<Value, string>, dumps: Ingest.Dumps): (r: (Value, Value))
    ensures GetThreadsData(after, refreshCache, cache, fetched).Failure? ==>
      r == (ErrorHandler.ErrorText(fetched.error, dumps), cache)
    ensures GetThreadsData(after, refreshCache, cache, fetched).Success? ==>
      var t := GetThreadsData(after, refreshCache, cache, fetched).value;
      var listed := ListOf(GetOr(t.data, "results", Arr([])));
      r.1 == t.cache
      && (|listed| == 0 ==> r.0 == EmptyThreadsResponse(t.data))
      && (|listed| > 0 ==>
            Get(r.0, "results") == Some(Formatters.ConvertDatetimeFields(Arr(GetThreadMessages(listed, fetch))))
            && NestedGet(r.0, "pagination", "next", "after") == NestedGet(t.data, "paging", "next", "after"))
  {
    match GetThreadsData(after, refreshCache, cache, fetched)
    case Failure(message) => (ErrorHandler.ErrorText(message, dumps), cache)
    case Success(t) =>
      var listed := ListOf(GetOr(t.data, "results", Arr([])));
      if |listed| == 0 then (EmptyThreadsResponse(t.data), t.cache)
      else
        var threads := Formatters.ConvertDatetimeFields(Arr(GetThreadMessages(listed, fetch)));
        (Listing(threads, NestedGet(t.data, "paging", "next", "after")), t.cache)
  }
}
