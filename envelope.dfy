/** The handler base class: the success envelope, the uncaught-exception
    envelope, and the catch-all that turns one invocation into a response.
    Exceptions are values of `Error`; a step that may raise returns a
    `Result` (or the `Option<Error>` it raised). */
module Envelope {
  import opened Strings

  datatype Option<+T> = None | Some(value: T)

  /** A raised exception as the handler sees it: the name of its class and its `str()`. */
  datatype Error = Error(typeName: string, value: string)

  datatype Result<+T> = Ok(value: T) | Err(error: Error)

  /** The values that occur as a response body: Python `None`, a string, a
      nested response dict, or the dict of error details. */
  datatype Value =
    | NoneValue
    | Text(s: string)
    | Nested(response: Response)
    | ErrorDetails(httpStatus: int, message: string, trace: seq<string>)

  /** The `{'statusCode': ..., 'body': ...}` dict returned to the runtime. */
  datatype Response = Response(statusCode: int, body: Value)

  /** Python truthiness of a body: `None` and `''` are false, a non-empty
      string is true, and every dict built here has keys, so it is true. */
  predicate Truthy(v: Value) {
    match v
    case NoneValue => false
    case Text(s) => s != ""
    case Nested(_) => true
    case ErrorDetails(_, _, _) => true
  }

  /** `_build_response_ok(body)`: status 200 and `body or ''`. */
  function BuildResponseOk(body: Value): (r: Response)
    ensures r.statusCode == 200
    ensures Truthy(body) ==> r.body == body
    ensures !Truthy(body) ==> r.body == Text("")
    ensures r.body != NoneValue
  {
    Response(200, if Truthy(body) then body else Text(""))
  }

  /** The message of the error envelope: the class name, one space, the value. */
  function Message(e: Error): (m: string)
    ensures |m| == |e.typeName| + 1 + |e.value|
    ensures m[..|e.typeName|] == e.typeName
    ensures m[|e.typeName|] == ' '
    ensures m[|e.typeName| + 1..] == e.value
  {
    e.typeName + " " + e.value
  }

  /** `_build_response_uncaught_exception()` for the exception `e`, whose
      formatted traceback is `trace` (`error_traces or []`). */
  function BuildResponseUncaughtException(e: Error, trace: seq<string>): (r: Response)
    ensures r.statusCode == 500
    ensures r.body.ErrorDetails? && r.body.httpStatus == 500
    ensures r.body.message == Message(e)
    ensures r.body.trace == trace
  {
    Response(500, ErrorDetails(500, Message(e), if trace != [] then trace else []))
  }

  /** Reads a message back into the class name (up to the first space) and
      the value (the rest); `None` when there is no space. */
  function ParseMessage(m: string): Option<Error> {
    var i := FirstIndex(m, ' ');
    if i < |m| then Some(Error(m[..i], m[i + 1..])) else None
  }

  /** `_check_inputs(event)` of the base class does nothing: it never raises. */
  function CheckInputs(): (raised: Option<Error>)
    ensures raised.None?
  {
    None
  }

  /** `process_event`: `debug` is what `_debug` raised, if anything, and
      `execute` is the outcome of `_execute` (consulted only when nothing
      raised before it). Whatever happens, a response comes back. */
  function ProcessEvent(debug: Option<Error>, execute: Result<Value>, trace: seq<string>): (r: Response)
    ensures r.statusCode == 200 <==> debug.None? && execute.Ok?
    ensures r.statusCode == 200 || r.statusCode == 500
    ensures debug.Some? ==> r == BuildResponseUncaughtException(debug.value, trace)
    ensures debug.None? && execute.Err? ==> r == BuildResponseUncaughtException(execute.error, trace)
    ensures debug.None? && execute.Ok? ==> r == BuildResponseOk(execute.value)
  {
    if debug.Some? then BuildResponseUncaughtException(debug.value, trace)
    else
      match CheckInputs()
      case Some(e) => BuildResponseUncaughtException(e, trace)
      case None =>
        match execute
        case Ok(v) => BuildResponseOk(v)
        case Err(e) => BuildResponseUncaughtException(e, trace)
  }

  /** Wrapping an ok body a second time changes nothing: the body is already
      truthy or the empty string. */
  lemma OkBodyStable(body: Value)
    ensures BuildResponseOk(BuildResponseOk(body).body) == BuildResponseOk(body)
  {
  }

  /** The error message can be read back into the exception it was built
      from when the class name holds no space, as for every exception
      raised here. */
  lemma MessageRoundTrip(e: Error)
    requires ' ' !in e.typeName
    ensures ParseMessage(Message(e)) == Some(e)
  {
  }
}
