/**
 * The pending JSONP handlers both script-tag transports keep, and what
 * happens when one of them is called with the server's response: the
 * response is projected onto the requested names (`Request.Project`) and
 * handed, with the raw response, to the caller's callback; the `stats`
 * facade first passes the projection through `sanitizeStatsResult`.
 */
module Callbacks {
  import opened JsValues
  import Request
  import StatsResult

  /** The callback a request carries: the caller's function, or the `stats` wrapper around it. */
  datatype Callback = Plain(f: Value) | SanitizingStats(f: Value)

  /** A registered handler: the names to project and the callback to call. */
  datatype Pending = Pending(names: Value, callback: Callback)

  /** The call the caller's function finally receives: `f(result, response)`. */
  datatype Call = Call(f: Value, result: Value, response: Value)

  /** `callback(extract(names, response), response)`, through the stats wrapper when there is one. */
  function Complete(p: Pending, response: Value): Call {
    var projection := Request.Project(p.names, response);
    match p.callback
    case Plain(f) => Call(f, projection, response)
    case SanitizingStats(f) => Call(f, StatsResult.SanitizeStats(projection), response)
  }

  /**
   * The caller's function always receives the raw response second, and
   * first the projection, sanitised for `stats`.
   */
  lemma CompleteForwards(p: Pending, response: Value)
    ensures Complete(p, response).response == response
    ensures Complete(p, response).f == p.callback.f
    ensures p.callback.Plain? ==> Complete(p, response).result == Request.Project(p.names, response)
    ensures p.callback.SanitizingStats? ==>
      Complete(p, response).result == StatsResult.SanitizeStats(Request.Project(p.names, response))
      && StatsResult.SanitizeStats(Complete(p, response).result) == Complete(p, response).result
  {
    if p.callback.SanitizingStats? {
      StatsResult.SanitizeStatsIdempotent(Request.Project(p.names, response));
    }
  }
}
