/**
 * The request base (src/request/request.js; `Request` in dist/yourls.js):
 * which HTTP methods a transport accepts, the request body (format, then
 * credentials, then call data), the URL and body `send` hands to the
 * transport, and the projection of the response onto the requested names.
 */
module Request {
  import opened Wrappers
  import opened JsValues
  import Connection
  import ObjectMerge
  import QueryString

  /** The three request types: the abstract base, the XHR one and the script-tag one. */
  datatype Kind = Base | Json | Jsonp

  /** `getSupportedHttpMethods()`: null for the base, which must be specialised. */
  function SupportedMethods(k: Kind): Option<seq<string>> {
    match k
    case Base => None
    case Json => Some(["GET", "POST"])
    case Jsonp => Some(["GET"])
  }

  /** `isMethodSupported(method)`: a listed method; never one for a null list. */
  predicate IsMethodSupported(k: Kind, m: string) {
    SupportedMethods(k).Some? && m in SupportedMethods(k).value
  }

  /**
   * The base request accepts nothing, a JSON request exactly GET and POST, a
   * JSONP request exactly GET; names are compared case-sensitively.
   */
  lemma SupportedMethodsExact(m: string)
    ensures !IsMethodSupported(Base, m)
    ensures IsMethodSupported(Json, m) <==> m == "GET" || m == "POST"
    ensures IsMethodSupported(Jsonp, m) <==> m == "GET"
    ensures !IsMethodSupported(Json, "PUT") && !IsMethodSupported(Jsonp, "POST") && !IsMethodSupported(Json, "get")
  {
  }

  /** `isQueryStringRequired(method)`: strict equality with `'GET'`. */
  predicate IsQueryStringRequired(m: string) {
    m == "GET"
  }

  /** The credentials as `extend` sees them: null, or the sanitised object. */
  function CredentialsValue(c: Option<Connection.Credentials>): Value {
    match c
    case None => Null
    case Some(cr) => Obj(Connection.CredentialsObject(cr))
  }

  /** `{ format: api.options.format }` */
  function FormatObject(format: string): (r: Dict)
    ensures Wf(r) && r.keys == ["format"]
  {
    Dict(["format"], map["format" := Str(format)])
  }

  /** `buildBody(api, data)`: `extend({ format }, api.credentials, data)`. */
  function BuildBody(api: Connection.Api, data: Value): Dict {
    ObjectMerge.ExtendAll(FormatObject(api.options.format), [CredentialsValue(api.credentials), data])
  }

  /**
   * Each body property comes from the data when the data has it, else from
   * the credentials, else it is the format: the data wins every collision.
   */
  lemma BodyLayers(api: Connection.Api, data: Value, k: string)
    ensures var creds := CredentialsValue(api.credentials);
      Lookup(BuildBody(api, data), k) ==
        if Truthy(data) && k in OwnProps(data).keys then Lookup(OwnProps(data), k)
        else if Truthy(creds) && k in OwnProps(creds).keys then Lookup(OwnProps(creds), k)
        else if k == "format" then Str(api.options.format)
        else Undefined
  {
    var creds := CredentialsValue(api.credentials);
    var t := FormatObject(api.options.format);
    ObjectMerge.ExtendLookup(t, [creds, data], k);
    assert [creds, data][..1] == [creds];
    assert [creds][..0] == [];
    assert ObjectMerge.LastWriter(t, [], k) == if k == "format" then Str(api.options.format) else Undefined;
    assert ObjectMerge.LastWriter(t, [creds], k) ==
      if Truthy(creds) && k in OwnProps(creds).keys then Lookup(OwnProps(creds), k)
      else ObjectMerge.LastWriter(t, [], k);
  }

  /** The body is a well-formed object whose first property is `format`. */
  lemma BodyShape(api: Connection.Api, data: Value)
    ensures Wf(BuildBody(api, data))
    ensures |BuildBody(api, data).keys| >= 1 && BuildBody(api, data).keys[0] == "format"
  {
    ObjectMerge.ExtendKeys(FormatObject(api.options.format), [CredentialsValue(api.credentials), data]);
  }

  /** What `send` hands to `process`: method, URL and body (null for a GET). */
  datatype Envelope = Envelope(httpMethod: string, url: string, body: Option<string>)

  /**
   * `send(...)` up to the call of `process`: the body is serialised; for a
   * GET it moves into the query string after `api.url + '?'` and the body
   * becomes null, for any other method the URL is `api.url` unchanged.
   */
  method Send(api: Connection.Api, body: Dict) returns (e: Envelope)
    ensures e.httpMethod == api.options.httpMethod
    ensures IsQueryStringRequired(e.httpMethod) ==>
      e.url == api.url + "?" + QueryString.Query(Obj(body)) && e.body == None
    ensures !IsQueryStringRequired(e.httpMethod) ==>
      e.url == api.url && e.body == Some(QueryString.Query(Obj(body)))
  {
    var serialized := QueryString.Paramify(Obj(body));
    var m := api.options.httpMethod;
    var url := api.url;
    var b := Some(serialized);
    if IsQueryStringRequired(m) {
      url := url + "?" + serialized;
      b := None;
    }
    e := Envelope(m, url, b);
  }

  /** `isArray(names) ? names : [ names ]` */
  function NameList(names: Value): seq<Value> {
    if names.Arr? then names.items else [names]
  }

  /** The fields of a multi-name projection: each name whose response value is not undefined. */
  function Gather(response: Value, ns: seq<Value>): Dict {
    if ns == [] then Empty
    else
      var name := ToStr(ns[|ns| - 1]);
      var acc := Gather(response, ns[..|ns| - 1]);
      if Get(response, name) != Undefined then Put(acc, name, Get(response, name)) else acc
  }

  /**
   * `_extractResult(names, response)` (and `getResult` in
   * src/request/jsonp.js, which is the same code): null for a falsy
   * response, `response[name]` for a single name, otherwise an object of the
   * named fields that the response defines.
   */
  function Project(names: Value, response: Value): Value {
    var ns := NameList(names);
    if !Truthy(response) then Null
    else if |ns| == 1 then Get(response, ToStr(ns[0]))
    else Obj(Gather(response, ns))
  }

  /**
   * The loop of `_extractResult`, assigning fields into `result` one name
   * at a time.
   */
  method ExtractResult(names: Value, response: Value) returns (result: Value)
    ensures result == Project(names, response)
    ensures !Truthy(response) ==> result == Null
  {
    var ns := NameList(names);
    result := Null;
    if !Truthy(response) {
      return;
    }
    if |ns| == 1 {
      result := Get(response, ToStr(ns[0]));
    } else {
      var fields := Empty;
      var i := 0;
      while i < |ns|
        invariant 0 <= i <= |ns|
        invariant fields == Gather(response, ns[..i])
      {
        var name := ToStr(ns[i]);
        assert ns[..i + 1][..i] == ns[..i];
        if Get(response, name) != Undefined {
          fields := Put(fields, name, Get(response, name));
        }
        i := i + 1;
      }
      assert ns[..i] == ns;
      result := Obj(fields);
    }
  }

  lemma {:induction false} GatherFields(response: Value, ns: seq<Value>, k: string)
    ensures Wf(Gather(response, ns))
    ensures k in Gather(response, ns).vals <==>
      (exists i :: 0 <= i < |ns| && ToStr(ns[i]) == k) && Get(response, k) != Undefined
    ensures k in Gather(response, ns).vals ==> Gather(response, ns).vals[k] == Get(response, k)
    decreases |ns|
  {
    if ns != [] {
      var init := ns[..|ns| - 1];
      GatherFields(response, init, k);
      if exists i :: 0 <= i < |ns| && ToStr(ns[i]) == k {
        var i :| 0 <= i < |ns| && ToStr(ns[i]) == k;
        if i < |ns| - 1 {
          assert init[i] == ns[i];
        }
      }
      if exists i :: 0 <= i < |init| && ToStr(init[i]) == k {
        var i :| 0 <= i < |init| && ToStr(init[i]) == k;
        assert ns[i] == init[i];
      }
    }
  }

  /**
   * The projection rules: null for a falsy response, the bare field for one
   * name (a string or a one-element array), and for several names an object
   * holding exactly the named fields the response defines, with their
   * values; a missing field is left out rather than set to null.
   */
  lemma ProjectRules(names: Value, response: Value, k: string)
    ensures !Truthy(response) ==> Project(names, response) == Null
    ensures Truthy(response) && names.Str? ==> Project(names, response) == Get(response, names.s)
    ensures Truthy(response) && names.Arr? && |names.items| == 1 ==>
      Project(names, response) == Get(response, ToStr(names.items[0]))
    ensures Truthy(response) && names.Arr? && |names.items| != 1 ==>
      Project(names, response).Obj?
      && Wf(Project(names, response).d)
      && (k in Project(names, response).d.vals <==>
          (exists i :: 0 <= i < |names.items| && ToStr(names.items[i]) == k) && Get(response, k) != Undefined)
      && (k in Project(names, response).d.vals ==> Project(names, response).d.vals[k] == Get(response, k))
  {
    if names.Arr? {
      GatherFields(response, names.items, k);
    }
  }
}
