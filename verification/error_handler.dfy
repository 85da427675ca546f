/** `handle_hubspot_errors`: what a decorated client call returns once an exception escapes it. */
module ErrorHandler {
  import opened Wrappers
  import opened Json
  import Ingest

  /** `json.dumps({"error": str(e)})`: the error travels on as a string, not as a dict. */
  function ErrorText(message: string, dumps: Ingest.Dumps): (r: Value)
    ensures r.Str? && !r.Obj?
  {
    Str(dumps(Obj([("error", Str(message))])))
  }

  /** The decorated call: its value when it returns, the error text when it raises. */
  function Handled(call: Result<Value, string>, dumps: Ingest.Dumps): (r: Value)
    ensures call.Success? ==> r == call.value
    ensures call.Failure? ==> r == ErrorText(call.error, dumps)
  {
    match call
    case Success(v) => v
    case Failure(message) => ErrorText(message, dumps)
  }
}
