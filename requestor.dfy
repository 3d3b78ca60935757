/**
 * `Requestor.sendRequest(data, resultNames, callback)` (src/request/requestor.js;
 * the same code in dist/yourls.js): the checks that run before a request is
 * sent — a stored connection, then a known format, then a method the
 * chosen request type accepts — and the hand-over to `send`.
 */
module Requestor {
  import opened Wrappers
  import opened JsValues
  import Connection
  import Request
  import QueryString
  import JsonTransport
  import Callbacks
  import JsonpRequest

  /** What `_requestFormatMap[format]` finds. */
  datatype FormatEntry =
    | Transport(kind: Request.Kind)  // an own property: `json` or `jsonp`
    | Inherited(name: string)        // a property of Object.prototype, found through the prototype chain
    | Absent

  /**
   * The property names every plain object inherits from Object.prototype.
   * `_sanitizeOptions` lower-cases the format, so of these only
   * `constructor` and `__proto__` can reach the lookup.
   */
  const ObjectPrototypeNames: set<string> := {
    "constructor", "__proto__", "hasOwnProperty", "isPrototypeOf", "propertyIsEnumerable",
    "toLocaleString", "toString", "valueOf",
    "__defineGetter__", "__defineSetter__", "__lookupGetter__", "__lookupSetter__"
  }

  /** `_requestFormatMap[format]` as JavaScript evaluates it on the object literal. */
  function FormatMapLookup(format: string): FormatEntry {
    if format == "json" then Transport(Request.Json)
    else if format == "jsonp" then Transport(Request.Jsonp)
    else if format in ObjectPrototypeNames then Inherited(format)
    else Absent
  }

  /** The own properties of `_requestFormatMap`: `json` and `jsonp`. */
  function FormatKind(format: string): Option<Request.Kind> {
    if format == "json" then Some(Request.Json)
    else if format == "jsonp" then Some(Request.Jsonp)
    else None
  }

  /**
   * The checks of `sendRequest` as written. An inherited entry is truthy, so
   * it passes the format check: `new Object.prototype` is not a constructor,
   * and `new Object()` has no `isMethodSupported`; both throw a TypeError
   * instead of the format error.
   */
  function PreflightAsWritten(instance: Option<Connection.Api>): Result<Request.Kind, Thrown> {
    if instance.None? then Failure(Error("No connection has been made"))
    else
      var format := instance.value.options.format;
      var m := instance.value.options.httpMethod;
      match FormatMapLookup(format)
      case Absent => Failure(Error("Request format not supported: " + format))
      case Inherited(name) =>
        if name == "constructor" then Failure(TypeError("request.isMethodSupported is not a function"))
        else Failure(TypeError("Request is not a constructor"))
      case Transport(k) =>
        if !Request.IsMethodSupported(k, m) then Failure(Error("HTTP method not supported: " + m))
        else Success(k)
  }

  /** Options anyone can pass to `connect` make the format check throw the wrong error. */
  lemma InheritedFormatSlipsThrough(url: string)
    ensures var api := Connection.Api(url, None, Connection.Options("constructor", "GET"));
      Connection.SanitizeOptions(Obj(Dict(["format"], map["format" := Str("constructor")])))
        == Success(api.options)
      && PreflightAsWritten(Some(api)) == Failure(TypeError("request.isMethodSupported is not a function"))
  {
    var o := Obj(Dict(["format"], map["format" := Str("constructor")]));
    assert ToLower("constructor") == "constructor";
  }

  /**
   * The checks with the format looked up among the map's own properties
   * only, which is what the message `Request format not supported` is for.
   */
  function Preflight(instance: Option<Connection.Api>): Result<Request.Kind, Thrown> {
    if instance.None? then Failure(Error("No connection has been made"))
    else
      var format := instance.value.options.format;
      var m := instance.value.options.httpMethod;
      match FormatKind(format)
      case None => Failure(Error("Request format not supported: " + format))
      case Some(k) =>
        if !Request.IsMethodSupported(k, m) then Failure(Error("HTTP method not supported: " + m))
        else Success(k)
  }

  /**
   * The checks run in order — connection, format, method — and the first
   * that fails decides the error; all pass exactly when there is a
   * connection, its format is `json` or `jsonp`, and the chosen request
   * type accepts its method.
   */
  lemma PreflightOrder(instance: Option<Connection.Api>)
    ensures instance.None? ==> Preflight(instance) == Failure(Error("No connection has been made"))
    ensures instance.Some? && FormatKind(instance.value.options.format).None? ==>
      Preflight(instance) == Failure(Error("Request format not supported: " + instance.value.options.format))
    ensures (instance.Some? && FormatKind(instance.value.options.format).Some?
      && !Request.IsMethodSupported(FormatKind(instance.value.options.format).value, instance.value.options.httpMethod)) ==>
      Preflight(instance) == Failure(Error("HTTP method not supported: " + instance.value.options.httpMethod))
    ensures Preflight(instance).Success? <==>
      instance.Some?
      && (instance.value.options.format == "json" || instance.value.options.format == "jsonp")
      && Request.IsMethodSupported(FormatKind(instance.value.options.format).value, instance.value.options.httpMethod)
    ensures Preflight(instance).Success? ==> Some(Preflight(instance).value) == FormatKind(instance.value.options.format)
  {
  }

  /** The default options of a fresh connection pass every check, choosing JSONP. */
  lemma DefaultsPass(url: string, credentials: Option<Connection.Credentials>)
    ensures Preflight(Some(Connection.Api(url, credentials, Connection.DefaultOptions))) == Success(Request.Jsonp)
  {
  }

  /** The checks as written agree with the corrected ones on every format that is not inherited. */
  lemma PreflightAgrees(instance: Option<Connection.Api>)
    requires instance.Some? ==> instance.value.options.format !in ObjectPrototypeNames
    ensures PreflightAsWritten(instance) == Preflight(instance)
  {
  }

  /** What leaves the library for the server once the checks pass. */
  datatype Sent =
    | XhrSent(envelope: Request.Envelope, headers: seq<(string, string)>, pending: Callbacks.Pending)
    | ScriptSent(envelope: Request.Envelope, id: nat)

  /**
   * `sendRequest` as written: the checks, in order, with the format looked
   * up as `_requestFormatMap[format]` does, so an inherited name ends in the
   * TypeError of `PreflightAsWritten`; then `send` on a new request of the
   * chosen type. A new JSONP request takes its id, advancing the shared
   * seed, before the method is checked, so a rejected method still uses up
   * an id; a JSONP request that is sent registers its handler. An XHR
   * request registers nothing: its callback travels with the XHR object.
   */
  method SendRequest(instance: Option<Connection.Api>, registry: JsonpRequest.Registry,
                     data: Value, resultNames: Value, callback: Callbacks.Callback)
    returns (r: Result<Sent, Thrown>)
    modifies registry
    ensures r.Failure? <==> PreflightAsWritten(instance).Failure?
    ensures r.Failure? ==> r.error == PreflightAsWritten(instance).error
    ensures instance.None? || FormatKind(instance.value.options.format) != Some(Request.Jsonp) ==>
      registry.seed == old(registry.seed) && registry.handlers == old(registry.handlers)
    ensures instance.Some? && FormatKind(instance.value.options.format) == Some(Request.Jsonp) ==>
      registry.seed > old(registry.seed)
    ensures r.Failure? ==> registry.handlers == old(registry.handlers)
    ensures r.Success? && r.value.XhrSent? ==>
      var api := instance.value;
      r.value.envelope.httpMethod == api.options.httpMethod
      && r.value.envelope == Envelope(api, Request.BuildBody(api, data))
      && r.value.headers == JsonTransport.Headers(r.value.envelope.body)
      && r.value.pending == Callbacks.Pending(resultNames, callback)
    ensures r.Success? && r.value.ScriptSent? ==>
      var api := instance.value;
      r.value.id == registry.seed && r.value.id !in old(registry.handlers)
      && registry.handlers == old(registry.handlers)[r.value.id := Callbacks.Pending(resultNames, callback)]
      && r.value.envelope == Envelope(api, JsonpRequest.Body(registry.key, api, data, r.value.id))
  {
    if instance.None? {
      return Failure(Error("No connection has been made"));
    }
    var api := instance.value;
    var format := api.options.format;
    var m := api.options.httpMethod;
    var entry := FormatMapLookup(format);
    if entry.Absent? {
      return Failure(Error("Request format not supported: " + format));
    }
    if entry.Inherited? {
      // `new Object()` has no `isMethodSupported`; `new Object.prototype` is no constructor
      if entry.name == "constructor" {
        return Failure(TypeError("request.isMethodSupported is not a function"));
      }
      return Failure(TypeError("Request is not a constructor"));
    }
    var kind := entry.kind;
    var id := 0;
    if kind == Request.Jsonp {
      id := registry.GenerateId();
    }
    if !Request.IsMethodSupported(kind, m) {
      return Failure(Error("HTTP method not supported: " + m));
    }
    if kind == Request.Json {
      var e := Request.Send(api, Request.BuildBody(api, data));
      r := Success(XhrSent(e, JsonTransport.Headers(e.body), Callbacks.Pending(resultNames, callback)));
    } else {
      var e := Request.Send(api, JsonpRequest.Body(registry.key, api, data, id));
      registry.Register(id, resultNames, callback);
      r := Success(ScriptSent(e, id));
    }
  }

  /** The envelope `send` produces for a body (see `Request.Send`). */
  function Envelope(api: Connection.Api, body: Dict): Request.Envelope {
    var q := QueryString.Query(Obj(body));
    if Request.IsQueryStringRequired(api.options.httpMethod)
    then Request.Envelope(api.options.httpMethod, api.url + "?" + q, None)
    else Request.Envelope(api.options.httpMethod, api.url, Some(q))
  }
}
