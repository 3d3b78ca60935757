/**
 * The decisions `JSONRequest.process` makes around its XMLHttpRequest
 * (src/request/json.js; the same code in dist/yourls.js): the headers it
 * sets, and what happens on each ready-state change. The request object,
 * the network and `JSON.parse` are outside the model: the parse is an input
 * that either yields a value or fails with a message, and so is whether
 * the callback throws.
 */
module JsonTransport {
  import opened Wrappers
  import opened JsValues

  const RequestedWith: (string, string) := ("X-Requested-With", "XMLHttpRequest")
  const FormContentType: (string, string) := ("Content-Type", "application/x-www-form-urlencoded")

  /** The headers set before `xhr.send(body)`, in order. */
  function Headers(body: Option<string>): seq<(string, string)> {
    [RequestedWith] + (if body.Some? then [FormContentType] else [])
  }

  /**
   * `X-Requested-With` is always set, and first; the form content type is
   * set exactly when there is a body, even an empty one.
   */
  lemma HeadersDecision(body: Option<string>)
    ensures Headers(body)[0] == RequestedWith
    ensures FormContentType in Headers(body) <==> body.Some?
    ensures FormContentType in Headers(Some(""))
    ensures |Headers(body)| == if body.Some? then 2 else 1
  {
  }

  /**
   * What `JSON.parse(xhr.responseText)` does. A failure carries `String(e)`
   * of what was thrown (`SyntaxError: …`), the text that
   * `'Unable to parse response: ' + e` appends; so does the exception taken
   * from a throwing callback (`Error: boom` for `new Error('boom')`).
   */
  datatype Parse = Parsed(value: Value) | ParseFailed(message: string)

  /** What leaves the ready-state handler besides the callback. */
  datatype Raised =
    | Wrapped(message: string)           // `new Error('Unable to parse response: ' + e)`
    | Propagated(message: string)        // the callback's own exception, unchanged

  /** One ready-state change: nothing yet, or the callback's argument (if it ran) and what was raised. */
  datatype Outcome = Waiting | Completed(delivered: Option<Value>, raised: Option<Raised>)

  /**
   * The ready-state handler as written: at state 4 the parse and the
   * callback share one `try`, so an exception thrown by the callback is
   * reported as a parse failure.
   */
  function ReadyStateAsWritten(readyState: int, parse: Parse, callbackThrows: Option<string>): (r: Outcome)
    ensures readyState != 4 <==> r == Waiting
  {
    if readyState != 4 then Waiting
    else
      match parse
      case ParseFailed(m) => Completed(None, Some(Wrapped("Unable to parse response: " + m)))
      case Parsed(v) =>
        match callbackThrows
        case None => Completed(Some(v), None)
        case Some(m) => Completed(Some(v), Some(Wrapped("Unable to parse response: " + m)))
  }

  /** A response that parsed, handed to a callback that throws `new Error('boom')`, is reported as unparseable. */
  lemma CallbackErrorReportedAsParseError()
    ensures ReadyStateAsWritten(4, Parsed(Null), Some("Error: boom"))
      == Completed(Some(Null), Some(Wrapped("Unable to parse response: Error: boom")))
  {
    assert "Unable to parse response: " + "Error: boom" == "Unable to parse response: Error: boom";
  }

  /**
   * The ready-state handler with only `JSON.parse` inside the `try`: a parse
   * failure is wrapped, an exception from the callback goes out as it is.
   */
  function ReadyState(readyState: int, parse: Parse, callbackThrows: Option<string>): (r: Outcome)
    ensures readyState != 4 <==> r == Waiting
  {
    if readyState != 4 then Waiting
    else
      match parse
      case ParseFailed(m) => Completed(None, Some(Wrapped("Unable to parse response: " + m)))
      case Parsed(v) =>
        match callbackThrows
        case None => Completed(Some(v), None)
        case Some(m) => Completed(Some(v), Some(Propagated(m)))
  }

  /**
   * The callback runs only at ready state 4 and only with the parsed value,
   * and the parse-failure error is raised exactly when the parse failed.
   */
  lemma ReadyStateRules(readyState: int, parse: Parse, callbackThrows: Option<string>)
    ensures var r := ReadyState(readyState, parse, callbackThrows);
      r.Completed? && r.delivered.Some? <==> readyState == 4 && parse.Parsed?
    ensures var r := ReadyState(readyState, parse, callbackThrows);
      r.Completed? && r.delivered.Some? ==> r.delivered.value == parse.value
    ensures var r := ReadyState(readyState, parse, callbackThrows);
      (r.Completed? && r.raised.Some? && r.raised.value.Wrapped?) <==> readyState == 4 && parse.ParseFailed?
    ensures var r := ReadyState(readyState, parse, callbackThrows);
      readyState == 4 && parse.ParseFailed? ==> r.raised == Some(Wrapped("Unable to parse response: " + parse.message))
  {
  }

  /**
   * The handler as written and the corrected one differ only when a parsed
   * response reaches a callback that throws: there the first wraps the
   * callback's error as a parse failure and the second lets it through.
   */
  lemma ReadyStateAgrees(readyState: int, parse: Parse, callbackThrows: Option<string>)
    ensures ReadyStateAsWritten(readyState, parse, callbackThrows) == ReadyState(readyState, parse, callbackThrows)
      <==> !(readyState == 4 && parse.Parsed? && callbackThrows.Some?)
    ensures callbackThrows.None? ==>
      ReadyStateAsWritten(readyState, parse, callbackThrows) == ReadyState(readyState, parse, callbackThrows)
  {
  }
}
