/**
 * The company client: recent companies, and a company's activity as the
 * list of its engagements, each formatted by type.
 */
module CompanyClient {
  import opened Wrappers
  import opened Json
  import Seqs
  import Formatters
  import Ingest
  import ErrorHandler

  // ----------------------------------------------------------------- recent

  /** The search for recent companies: newest modification first, a fixed property list. */
  datatype CompanySearch = CompanySearch(sortProperty: string, direction: string, limit: int, properties: seq<string>)

  const CompanyProperties: seq<string> := ["name", "domain", "website", "phone", "industry", "hs_lastmodifieddate"]

  function CreateCompanySearchRequest(limit: int): (r: CompanySearch)
    ensures r.limit == limit && r.sortProperty == "lastmodifieddate" && r.direction == "DESCENDING"
    ensures r.properties == CompanyProperties
  {
    CompanySearch("lastmodifieddate", "DESCENDING", limit, CompanyProperties)
  }

  /**
   * `get_recent`: the companies as dicts, datetimes converted, as one JSON
   * text; a failed search becomes the error text. `search` stands for the
   * search endpoint.
   */
  function GetRecent(limit: int, search: CompanySearch -> Result<seq<Value>, string>, dumps: Ingest.Dumps): (r: Value)
    ensures r.Str?
    ensures search(CreateCompanySearchRequest(limit)).Success? ==>
      exists v :: Formatters.ConvertedList(v, search(CreateCompanySearchRequest(limit)).value) && r == Str(dumps(v))
    ensures search(CreateCompanySearchRequest(limit)).Failure? ==>
      r == ErrorHandler.ErrorText(search(CreateCompanySearchRequest(limit)).error, dumps)
  {
    match search(CreateCompanySearchRequest(limit))
    case Failure(e) => ErrorHandler.ErrorText(e, dumps)
    case Success(companies) =>
      Formatters.ConvertList(companies);
      Str(dumps(Formatters.ConvertDatetimeFields(Arr(companies))))
  }

  // ------------------------------------------------------------ engagements

  /** One association of the company with an engagement. */
  datatype Association = Association(toObjectId: Value)

  /** The association page: `None` when the response has no `results` attribute. */
  type AssociationPage = Option<seq<Association>>

  /** `_extract_engagement_ids`: one id per association, in order; none without `results`. */
  function ExtractEngagementIds(page: AssociationPage): (ids: seq<Value>)
    ensures page.None? ==> ids == []
    ensures page.Some? ==>
      |ids| == |page.value| && forall i :: 0 <= i < |page.value| ==> ids[i] == page.value[i].toObjectId
  {
    match page
    case None => []
    case Some(results) => seq(|results|, i requires 0 <= i < |results| => results[i].toObjectId)
  }

  /** The engagement fields copied under new names; each is `None` when absent. */
  const EngagementFields: seq<FieldSpec> := [
    ("id", "id", Null), ("type", "type", Null), ("created_at", "createdAt", Null),
    ("last_updated", "lastUpdated", Null), ("created_by", "createdBy", Null),
    ("modified_by", "modifiedBy", Null), ("timestamp", "timestamp", Null)]

  const ParticipantFields: seq<FieldSpec> := [
    ("raw", "raw", Str("")), ("email", "email", Str("")), ("firstName", "firstName", Str("")),
    ("lastName", "lastName", Str(""))]

  const TaskFields: seq<FieldSpec> := [
    ("subject", "subject", Str("")), ("body", "body", Str("")), ("status", "status", Str("")),
    ("for_object_type", "forObjectType", Str(""))]

  const MeetingFields: seq<FieldSpec> := [
    ("title", "title", Str("")), ("body", "body", Str("")), ("start_time", "startTime", Null),
    ("end_time", "endTime", Null), ("internal_notes", "internalMeetingNotes", Str(""))]

  const CallFields: seq<FieldSpec> := [
    ("body", "body", Str("")), ("from_number", "fromNumber", Str("")), ("to_number", "toNumber", Str("")),
    ("duration_ms", "durationMilliseconds", Null), ("status", "status", Str("")),
    ("disposition", "disposition", Str(""))]

  /** `_format_email_participant`: the four name fields, each `""` when absent; only a dict has them. */
  function FormatEmailParticipant(p: Value): (r: Result<Value, string>)
    ensures r.Success? <==> p.Obj?
    ensures r.Success? ==> r.value == Obj(Pick(p, ParticipantFields))
  {
    if p.Obj? then Success(Obj(Pick(p, ParticipantFields))) else Failure(NoGetMessage)
  }

  /** Every participant field reads back as the input's value, or `""` when absent. */
  lemma ParticipantDefaults(p: Value, i: nat)
    requires p.Obj? && i < |ParticipantFields|
    ensures Get(FormatEmailParticipant(p).value, ParticipantFields[i].0)
      == Some(GetOr(p, ParticipantFields[i].1, Str("")))
  {
    PickLookup(p, ParticipantFields, i);
  }

  /** `[format(r) for r in v]`: one participant per item visited, in order; the first failure escapes. */
  function FormatParticipants(v: Value): (r: Result<seq<Value>, string>)
    ensures Iterate(v).None? ==> r.Failure?
    ensures Iterate(v).Some? ==> r == Seqs.MapAll(Iterate(v).value, FormatEmailParticipant)
  {
    match Iterate(v)
    case None => Failure("TypeError: object is not iterable")
    case Some(items) => Seqs.MapAll(items, FormatEmailParticipant)
  }

  /** A recipient list maps one to one, in order, onto formatted participants. */
  lemma ParticipantsOneToOne(v: Value)
    requires v.Arr? && FormatParticipants(v).Success?
    ensures |FormatParticipants(v).value| == |v.items|
    ensures forall i :: 0 <= i < |v.items| ==>
      v.items[i].Obj? && FormatParticipants(v).value[i] == Obj(Pick(v.items[i], ParticipantFields))
  {
  }

  /** The keys of the email content, in order. */
  const EmailKeys: seq<string> := ["subject", "from", "to", "cc", "bcc", "sender", "body"]

  /** The parts of an email content that can raise: the participants and the sender's address. */
  datatype EmailParts = EmailParts(from: Value, to: seq<Value>, cc: seq<Value>, bcc: seq<Value>, senderEmail: Value)

  /** The raising parts, in source order: `from`, `to`, `cc`, `bcc`, then `sender`. */
  function EmailPartsOf(m: Value): (r: Result<EmailParts, string>)
    ensures r.Success? ==> m.Obj?
    ensures r.Success? ==> FormatParticipants(GetOr(m, "to", Arr([]))) == Success(r.value.to)
  {
    if !m.Obj? then Failure(NoGetMessage)
    else match FormatEmailParticipant(GetOr(m, "from", Obj([])))
      case Failure(e) => Failure(e)
      case Success(from) =>
        match FormatParticipants(GetOr(m, "to", Arr([])))
        case Failure(e) => Failure(e)
        case Success(to) =>
          match FormatParticipants(GetOr(m, "cc", Arr([])))
          case Failure(e) => Failure(e)
          case Success(cc) =>
            match FormatParticipants(GetOr(m, "bcc", Arr([])))
            case Failure(e) => Failure(e)
            case Success(bcc) =>
              match GetStrict(GetOr(m, "sender", Obj([])), "email", Str(""))
              case Failure(e) => Failure(e)
              case Success(senderEmail) => Success(EmailParts(from, to, cc, bcc, senderEmail))
  }

  lemma EmailKeysDistinct()
    ensures Distinct(EmailKeys)
  {
  }

  /** The email content's values, given its parts, in key order. */
  function EmailValues(m: Value, p: EmailParts): (vs: seq<Value>)
    ensures |vs| == |EmailKeys|
    ensures vs[0] == GetOr(m, "subject", Str("")) && vs[2] == Arr(p.to)
    ensures vs[6] == Or(GetOr(m, "text", Str("")), GetOr(m, "html", Str("")))
  {
    [GetOr(m, "subject", Str("")), p.from, Arr(p.to), Arr(p.cc), Arr(p.bcc), Obj([("email", p.senderEmail)]),
     Or(GetOr(m, "text", Str("")), GetOr(m, "html", Str("")))]
  }

  /** The email content's fields, given its parts. */
  function EmailFields(m: Value, p: EmailParts): (fs: Fields)
    ensures Keys(fs) == EmailKeys
  {
    ZipKeys(EmailKeys, EmailValues(m, p));
    Zip(EmailKeys, EmailValues(m, p))
  }

  /** `_format_email_content`. */
  function FormatEmailContent(m: Value): (r: Result<Value, string>)
    ensures r.Success? <==> EmailPartsOf(m).Success?
    ensures r.Success? ==> m.Obj? && r.value.Obj? && Keys(r.value.fields) == EmailKeys
  {
    match EmailPartsOf(m)
    case Failure(e) => Failure(e)
    case Success(p) => Success(Obj(EmailFields(m, p)))
  }

  /**
   * The email content: `to` holds one participant per recipient, in order,
   * and `body` is the text when it is truthy, else the HTML.
   */
  lemma EmailContentFields(m: Value)
    requires FormatEmailContent(m).Success?
    ensures var r := FormatEmailContent(m).value;
      FormatParticipants(GetOr(m, "to", Arr([]))).Success?
      && Get(r, "to") == Some(Arr(FormatParticipants(GetOr(m, "to", Arr([]))).value))
      && Get(r, "body") == Some(Or(GetOr(m, "text", Str("")), GetOr(m, "html", Str(""))))
      && Get(r, "subject") == Some(GetOr(m, "subject", Str("")))
  {
    var p := EmailPartsOf(m).value;
    var vs := EmailValues(m, p);
    assert FormatEmailContent(m).value == Obj(Zip(EmailKeys, vs));
    EmailKeysDistinct();
    LookupZip(EmailKeys, vs, 0);
    LookupZip(EmailKeys, vs, 2);
    LookupZip(EmailKeys, vs, 6);
  }

  /** The types with a content formatter. */
  predicate KnownType(t: Value) {
    t == Str("NOTE") || t == Str("EMAIL") || t == Str("TASK") || t == Str("MEETING") || t == Str("CALL")
  }

  /** The types whose content is a fixed pick of metadata fields. */
  predicate PickedType(t: Value) {
    t == Str("TASK") || t == Str("MEETING") || t == Str("CALL")
  }

  /** The fields picked for each such type. */
  function SpecOf(t: Value): (spec: seq<FieldSpec>)
    ensures PickedType(t) ==> DistinctOut(spec)
  {
    if t == Str("TASK") then TaskSpec()
    else if t == Str("MEETING") then MeetingSpec()
    else if t == Str("CALL") then CallSpec()
    else []
  }

  /** No two fields of a spec share an output key. */
  predicate DistinctOut(spec: seq<FieldSpec>) {
    forall i, j :: 0 <= i < j < |spec| ==> spec[i].0 != spec[j].0
  }

  function TaskSpec(): (spec: seq<FieldSpec>)
    ensures spec == TaskFields && DistinctOut(spec)
  {
    TaskFields
  }

  function MeetingSpec(): (spec: seq<FieldSpec>)
    ensures spec == MeetingFields && DistinctOut(spec)
  {
    MeetingFields
  }

  function CallSpec(): (spec: seq<FieldSpec>)
    ensures spec == CallFields && DistinctOut(spec)
  {
    CallFields
  }

  function EngagementSpec(): (spec: seq<FieldSpec>)
    ensures spec == EngagementFields && DistinctOut(spec)
    ensures forall i :: 0 <= i < |spec| ==> spec[i].0 != "associations" && spec[i].0 != "content"
  {
    EngagementFields
  }

  /**
   * `_format_engagement_content`: a note's body (default `""`), the
   * fixed-key dict of an email, task, meeting or call, and `{}` for any
   * other type, whatever the metadata.
   */
  function FormatEngagementContent(t: Value, m: Value): (r: Result<Value, string>)
    ensures !KnownType(t) ==> r == Success(Obj([]))
    ensures KnownType(t) && !m.Obj? ==> r.Failure?
    ensures t == Str("NOTE") && m.Obj? ==> r == Success(GetOr(m, "body", Str("")))
    ensures t == Str("EMAIL") ==> r == FormatEmailContent(m)
    ensures PickedType(t) && m.Obj? ==> r == Success(Obj(Pick(m, SpecOf(t))))
  {
    if t == Str("NOTE") then GetStrict(m, "body", Str(""))
    else if t == Str("EMAIL") then FormatEmailContent(m)
    else if !KnownType(t) then Success(Obj([]))
    else if !m.Obj? then Failure(NoGetMessage)
    else Success(Obj(Pick(m, SpecOf(t))))
  }

  /**
   * A task, meeting or call content holds exactly its type's keys, each
   * the metadata's value under the source name or the default.
   */
  lemma PickedContentField(t: Value, m: Value, i: nat)
    requires PickedType(t) && m.Obj? && i < |SpecOf(t)|
    ensures var c := FormatEngagementContent(t, m).value;
      c.Obj? && Keys(c.fields) == OutKeys(SpecOf(t))
      && Get(c, SpecOf(t)[i].0) == Some(GetOr(m, SpecOf(t)[i].1, SpecOf(t)[i].2))
  {
    PickLookup(m, SpecOf(t), i);
  }

  /** The keys of a formatted engagement before any `content`. */
  function FormattedKeys(): seq<string> {
    OutKeys(EngagementFields) + ["associations"]
  }

  /** The formatted engagement before any `content`: the renamed fields, then the associations. */
  function EngagementBase(resp: Value): (fs: Fields)
    ensures Keys(fs) == FormattedKeys()
    ensures |fs| == |EngagementFields| + 1
    ensures forall i :: 0 <= i < |EngagementFields| ==>
      fs[i] == (EngagementFields[i].0, GetOr(GetOr(resp, "engagement", Obj([])), EngagementFields[i].1, EngagementFields[i].2))
  {
    var picked := Pick(GetOr(resp, "engagement", Obj([])), EngagementSpec());
    var fs := picked + [("associations", GetOr(resp, "associations", Obj([])))];
    KeysAppend(picked, [("associations", GetOr(resp, "associations", Obj([])))]);
    fs
  }

  /** `formatted_engagement["content"] = ...` when the type is truthy. */
  function WithContent(base: Fields, t: Value, metadata: Value): (r: Result<Fields, string>)
    ensures !Truthy(t) ==> r == Success(base)
    ensures Truthy(t) ==> (r.Success? <==> FormatEngagementContent(t, metadata).Success?)
    ensures Truthy(t) && r.Success? ==> r.value == base + [("content", FormatEngagementContent(t, metadata).value)]
  {
    if !Truthy(t) then Success(base)
    else match FormatEngagementContent(t, metadata)
      case Failure(e) => Failure(e)
      case Success(c) => Success(base + [("content", c)])
  }

  /**
   * `_format_engagement`: the engagement's fields under new names and the
   * associations, then `content` when the type is truthy.
   */
  function FormatEngagement(resp: Value): (r: Result<Value, string>)
    ensures !resp.Obj? ==> r.Failure?
    ensures r.Success? ==>
      var fs := WithContent(EngagementBase(resp), EngagementType(resp), GetOr(resp, "metadata", Obj([])));
      fs.Success? && r.value == Obj(fs.value)
  {
    if !resp.Obj? || !GetOr(resp, "engagement", Obj([])).Obj? then Failure(NoGetMessage)
    else match WithContent(EngagementBase(resp), EngagementType(resp), GetOr(resp, "metadata", Obj([])))
      case Failure(e) => Failure(e)
      case Success(fs) => Success(Obj(fs))
  }

  /** `engagement_data.get("type")`. */
  function EngagementType(resp: Value): Value {
    GetOr(GetOr(resp, "engagement", Obj([])), "type", Null)
  }

  /** `content` is present iff the type is truthy, and then it is the type's content. */
  lemma FormatEngagementContentKey(resp: Value)
    requires FormatEngagement(resp).Success?
    ensures var r := FormatEngagement(resp).value;
      var t := EngagementType(resp);
      r.Obj?
      && (Truthy(t) ==>
            Keys(r.fields) == FormattedKeys() + ["content"]
            && Get(r, "content") == Some(FormatEngagementContent(t, GetOr(resp, "metadata", Obj([]))).value))
      && (!Truthy(t) ==> Keys(r.fields) == FormattedKeys())
  {
    var t := EngagementType(resp);
    if Truthy(t) {
      var c := FormatEngagementContent(t, GetOr(resp, "metadata", Obj([]))).value;
      ContentNotBaseKey();
      LookupAppended(EngagementBase(resp), "content", c);
    }
  }

  /** `content` is not one of the base keys. */
  lemma ContentNotBaseKey()
    ensures "content" !in FormattedKeys()
  {
    var spec := EngagementSpec();
    var ks := FormattedKeys();
    forall j | 0 <= j < |ks| ensures ks[j] != "content" {
      if j < |spec| {
        assert ks[j] == spec[j].0;
      }
    }
  }

  /** The copied engagement fields read back as the engagement's own, or the default when absent. */
  lemma FormatEngagementField(resp: Value, i: nat)
    requires FormatEngagement(resp).Success? && i < |EngagementFields|
    ensures Get(FormatEngagement(resp).value, EngagementFields[i].0)
      == Some(GetOr(GetOr(resp, "engagement", Obj([])), EngagementFields[i].1, EngagementFields[i].2))
  {
    var base := EngagementBase(resp);
    BaseFieldLookup(resp, i);
    var t := EngagementType(resp);
    if Truthy(t) {
      ContentNotBaseKey();
      assert Keys(base)[i] == EngagementFields[i].0;
      LookupAppendedOther(base, "content", FormatEngagementContent(t, GetOr(resp, "metadata", Obj([]))).value, EngagementFields[i].0);
    }
  }

  /** Each copied field is found under its new name among the base fields. */
  lemma BaseFieldLookup(resp: Value, i: nat)
    requires i < |EngagementFields|
    ensures Lookup(EngagementBase(resp), EngagementFields[i].0)
      == Some(GetOr(GetOr(resp, "engagement", Obj([])), EngagementFields[i].1, EngagementFields[i].2))
  {
    var base := EngagementBase(resp);
    var spec := EngagementSpec();
    forall j | 0 <= j < i ensures base[j].0 != base[i].0 {
      assert base[j].0 == spec[j].0 && base[i].0 == spec[i].0;
    }
    LookupFirst(base, i);
  }

  /** The keys of a concatenation are the concatenated keys. */
  lemma {:induction false} KeysAppend(a: Fields, b: Fields)
    ensures Keys(a + b) == Keys(a) + Keys(b)
  {
    assert Keys(a + b) == Keys(a) + Keys(b) by {
      forall i | 0 <= i < |a + b| ensures Keys(a + b)[i] == (Keys(a) + Keys(b))[i] {
      }
    }
  }

  /** The detail of one engagement: nothing when its fetch or its formatting raises. */
  function EngagementDetail(id: Value, fetch: Value -> Result<Value, string>): (r: Option<Value>)
    ensures r.Some? <==> fetch(id).Success? && FormatEngagement(fetch(id).value).Success?
    ensures r.Some? ==> r.value == FormatEngagement(fetch(id).value).value
  {
    match fetch(id)
    case Failure(_) => None
    case Success(resp) =>
      match FormatEngagement(resp)
      case Failure(_) => None
      case Success(e) => Some(e)
  }

  /** `_get_engagement_details`: the formatted engagements in id order, skipping the ones that fail. */
  function GetEngagementDetails(ids: seq<Value>, fetch: Value -> Result<Value, string>): seq<Value> {
    Seqs.FlatMap(ids, id => Seqs.OptionSeq(EngagementDetail(id, fetch)))
  }

  /** A detail is listed iff it is the formatting of some id's successful fetch. */
  lemma EngagementDetailsMembers(ids: seq<Value>, fetch: Value -> Result<Value, string>, e: Value)
    ensures e in GetEngagementDetails(ids, fetch) <==> exists id :: id in ids && EngagementDetail(id, fetch) == Some(e)
  {
    var f := (id: Value) => Seqs.OptionSeq(EngagementDetail(id, fetch));
    Seqs.FlatMapMembers(ids, f, e);
    if e in GetEngagementDetails(ids, fetch) {
      var id :| id in ids && e in f(id);
      assert EngagementDetail(id, fetch) == Some(e);
    } else {
      forall id | id in ids ensures EngagementDetail(id, fetch) != Some(e) {
        assert e !in f(id);
      }
    }
  }

  /** Skipping keeps order: the details of a concatenation are the concatenated details. */
  lemma EngagementDetailsAppend(a: seq<Value>, b: seq<Value>, fetch: Value -> Result<Value, string>)
    ensures GetEngagementDetails(a + b, fetch) == GetEngagementDetails(a, fetch) + GetEngagementDetails(b, fetch)
  {
    Seqs.FlatMapAppend(a, b, (id: Value) => Seqs.OptionSeq(EngagementDetail(id, fetch)));
  }

  /** At most one detail per id, and exactly one per id when nothing fails. */
  lemma EngagementDetailsCount(ids: seq<Value>, fetch: Value -> Result<Value, string>)
    ensures |GetEngagementDetails(ids, fetch)| <= |ids|
    ensures (forall id :: id in ids ==> EngagementDetail(id, fetch).Some?) ==>
      |GetEngagementDetails(ids, fetch)| == |ids|
  {
    var f := (id: Value) => Seqs.OptionSeq(EngagementDetail(id, fetch));
    Seqs.FlatMapShorter(ids, f);
    if forall id :: id in ids ==> EngagementDetail(id, fetch).Some? {
      Seqs.FlatMapExact(ids, f);
    }
  }

  /**
   * `get_activity`: the company's engagement details, datetimes converted,
   * as one JSON text; a failed association request becomes the error text.
   * `page` and `fetch` stand for the association and engagement endpoints.
   */
  function GetActivity(page: Result<AssociationPage, string>, fetch: Value -> Result<Value, string>,
                       dumps: Ingest.Dumps): (r: Value)
    ensures r.Str?
    ensures page.Failure? ==> r == ErrorHandler.ErrorText(page.error, dumps)
    ensures page.Success? ==>
      var details := GetEngagementDetails(ExtractEngagementIds(page.value), fetch);
      |details| <= |ExtractEngagementIds(page.value)|
      && exists v :: Formatters.ConvertedList(v, details) && r == Str(dumps(v))
  {
    match page
    case Failure(e) => ErrorHandler.ErrorText(e, dumps)
    case Success(p) =>
      var details := GetEngagementDetails(ExtractEngagementIds(p), fetch);
      EngagementDetailsCount(ExtractEngagementIds(p), fetch);
      Formatters.ConvertList(details);
      Str(dumps(Formatters.ConvertDatetimeFields(Arr(details))))
  }
}
