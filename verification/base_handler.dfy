/** The helpers every tool handler shares: argument checks and defaults, text responses, guarded storing. */
module BaseHandler {
  import opened Wrappers
  import opened Json
  import opened FaissStore
  import Ingest

  /** `", ".join(keys)`. */
  function JoinComma(keys: seq<string>): (r: string)
    ensures |keys| == 1 ==> r == keys[0]
  {
    if |keys| == 0 then ""
    else if |keys| == 1 then keys[0]
    else keys[0] + ", " + JoinComma(keys[1..])
  }

  /** The position of the first key of `keys` that `args` lacks, if any. */
  function FirstMissing(args: Value, keys: seq<string>): (r: Option<nat>)
    ensures r.Some? ==> r.value < |keys| && !Has(args, keys[r.value])
    ensures r.Some? ==> forall j :: 0 <= j < r.value ==> Has(args, keys[j])
    ensures r.None? <==> forall j :: 0 <= j < |keys| ==> Has(args, keys[j])
    decreases |keys|
  {
    if |keys| == 0 then None
    else if !Has(args, keys[0]) then Some(0)
    else match FirstMissing(args, keys[1..])
      case None => None
      case Some(i) => Some(i + 1)
  }

  /**
   * `validate_required_arguments`: the `ValueError` message, if any.
   * Missing (`None`) or empty arguments fail outright; otherwise the first
   * required key, in list order, that is absent is reported.
   */
  function ValidateRequiredArguments(args: Value, required: seq<string>): (r: Result<(), string>)
    ensures !Truthy(args) ==> r == Failure("Missing arguments. Required: " + JoinComma(required))
    ensures Truthy(args) ==>
      (r.Success? <==> forall j :: 0 <= j < |required| ==> Has(args, required[j]))
    ensures Truthy(args) && r.Failure? ==>
      exists i :: 0 <= i < |required| && !Has(args, required[i])
        && (forall j :: 0 <= j < i ==> Has(args, required[j]))
        && r.error == "Missing required argument: " + required[i]
  {
    if !Truthy(args) then Failure("Missing arguments. Required: " + JoinComma(required))
    else match FirstMissing(args, required)
      case None => Success(())
      case Some(i) => Failure("Missing required argument: " + required[i])
  }

  /** With every required key present, validation fails only on empty arguments, and then whatever the keys. */
  lemma ValidateNeedsOnlyTruthyArgs(args: Value, required: seq<string>)
    requires forall j :: 0 <= j < |required| ==> Has(args, required[j])
    ensures ValidateRequiredArguments(args, required).Success? <==> Truthy(args)
  {
  }

  /**
   * `get_argument_with_default`: the default for missing or empty
   * arguments, else `arguments.get(key, default)`, so a key present with
   * value `None` yields `None`.
   */
  function GetArgumentWithDefault(args: Value, key: string, default: Value): (r: Value)
    ensures !Truthy(args) ==> r == default
    ensures Truthy(args) && !Has(args, key) ==> r == default
    ensures Truthy(args) && Has(args, key) ==> Get(args, key) == Some(r)
  {
    if !Truthy(args) then default else GetOr(args, key, default)
  }

  /** A present `None` is returned as `None`, not replaced by the default. */
  lemma ExplicitNoneKept(args: Value, key: string, default: Value)
    requires Truthy(args) && Get(args, key) == Some(Null)
    ensures GetArgumentWithDefault(args, key, default) == Null
  {
  }

  /**
   * The handlers' `int(x) if x is not None else d` on an argument read with
   * default `d`: `d` when the argument is missing or `None`, else the
   * conversion, which may raise.
   */
  function IntArgument(args: Value, key: string, default: int): (r: Result<int, string>)
    ensures !Truthy(args) || !Has(args, key) || Get(args, key) == Some(Null) ==> r == Success(default)
    ensures Truthy(args) && Has(args, key) && Get(args, key) != Some(Null) ==> r == PyInt(Get(args, key).value)
  {
    var v := GetArgumentWithDefault(args, key, Int(default));
    if v == Null then Success(default) else PyInt(v)
  }

  /** `float(x) if x is not None else d`, likewise. */
  function FloatArgument(args: Value, key: string, default: real): (r: Result<real, string>)
    ensures !Truthy(args) || !Has(args, key) || Get(args, key) == Some(Null) ==> r == Success(default)
    ensures Truthy(args) && Has(args, key) && Get(args, key) != Some(Null) ==> r == PyFloat(Get(args, key).value)
  {
    var v := GetArgumentWithDefault(args, key, Real(default));
    if v == Null then Success(default) else PyFloat(v)
  }

  /** `types.TextContent(type="text", text=...)`. */
  datatype TextContent = TextContent(kind: string, text: string)

  /**
   * `create_text_response`: a string is passed through, anything else is
   * `json.dumps`-ed (which raises on a datetime); the response is always a
   * single text item.
   */
  function CreateTextResponse(content: Value, dumps: Ingest.Dumps): (r: Result<seq<TextContent>, string>)
    ensures r.Success? <==> content.Str? || Dumpable(content)
    ensures r.Success? ==> |r.value| == 1 && r.value[0].kind == "text"
    ensures content.Str? ==> r == Success([TextContent("text", content.s)])
    ensures !content.Str? && Dumpable(content) ==> r.value[0].text == dumps(content)
  {
    if content.Str? then Success([TextContent("text", content.s)])
    else if Dumpable(content) then Success([TextContent("text", dumps(content))])
    else Failure("TypeError: Object of type datetime is not JSON serializable")
  }

  /**
   * `store_in_faiss_safely`: nothing for empty data; otherwise
   * `store_in_faiss`, whose own errors are swallowed, followed by a call to
   * the store's `save_today_index`, which does not exist: the resulting
   * `AttributeError` is swallowed as well, so the state is the one
   * `store_in_faiss` left.
   */
  function StoreInFaissSafely(s: State, today: string, data: seq<Value>, dataType: string, extras: Fields,
                              dumps: Ingest.Dumps, encode: Ingest.Encoder): (r: State)
    ensures |data| == 0 ==> r == s
  {
    if |data| == 0 then s
    else Ingest.StoreInFaiss(s, today, data, dataType, extras, dumps, encode)
  }

  /**
   * The guard and the failing save add nothing: storing safely is storing,
   * and it keeps the store's key-set invariant.
   */
  lemma StoreSafelyIsStore(s: State, today: string, data: seq<Value>, dataType: string, extras: Fields,
                           dumps: Ingest.Dumps, encode: Ingest.Encoder)
    requires Inv(s.store)
    ensures StoreInFaissSafely(s, today, data, dataType, extras, dumps, encode)
      == Ingest.StoreInFaiss(s, today, data, dataType, extras, dumps, encode)
    ensures Inv(StoreInFaissSafely(s, today, data, dataType, extras, dumps, encode).store)
  {
    Ingest.StoreInFaissKeepsInv(s, today, data, dataType, extras, dumps, encode);
  }

  /**
   * With items the encoder can embed at today's width, storing safely
   * appends one envelope per item, in order, to today's metadata.
   */
  lemma StoreSafelyAppends(s: State, today: string, data: seq<Value>, dataType: string, extras: Fields,
                           dumps: Ingest.Dumps, encode: Ingest.Encoder)
    requires Inv(s.store) && |data| > 0 && AllDumpable(data)
    requires Ingest.EncodesWidth(encode, TodayBefore(s.store, today).dim)
    ensures var st' := StoreInFaissSafely(s, today, data, dataType, extras, dumps, encode).store;
      Inv(st')
      && TodayRecordsBefore(st', today) == TodayRecordsBefore(s.store, today) + Ingest.Records(data, dataType, extras)
  {
    var vs := Ingest.GenerateEmbeddings(data, dumps, encode).value;
    Ingest.StoreInFaissEffect(s, today, data, dataType, extras, dumps, encode, vs);
  }
}
