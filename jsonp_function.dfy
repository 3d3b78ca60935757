/**
 * The older functional JSONP transport `jsonp(data, resultNames, callback)`
 * of src/request/jsonp.js, which src/yourls.js calls directly: ids taken
 * from the clock and bumped past pending ones, a handler registered per
 * call, and a script URL assembled from three query strings. The clock is
 * a parameter; the script tag is outside the model.
 */
module JsonpFunction {
  import opened Wrappers
  import opened JsValues
  import Connection
  import QueryString
  import Request
  import Callbacks
  import JsonpRequest

  /** `{ callback: key + '[' + id + ']', format: 'jsonp' }` */
  function FirstParams(key: string, id: nat): Value {
    Obj(Dict(["callback", "format"],
      map["callback" := Str(JsonpRequest.CallbackName(key, id)), "format" := Str("jsonp")]))
  }

  /** `first`, then `'&' + creds` if there are credentials, then `'&' + data` if there is data. */
  function Assemble(first: string, creds: Option<string>, data: Option<string>): string {
    After(After(first, creds), data)
  }

  /** `s + '&' + part` when there is a part. */
  function After(s: string, part: Option<string>): string {
    if part.Some? then s + ("&" + part.value) else s
  }

  /** `paramify(api.credentials)`, when the connection has credentials. */
  function CredentialsPart(api: Connection.Api): Option<string> {
    if api.credentials.Some? then Some(QueryString.Query(Request.CredentialsValue(api.credentials))) else None
  }

  /** `paramify(data)`, when the data is truthy. */
  function DataPart(data: Value): Option<string> {
    if Truthy(data) then Some(QueryString.Query(data)) else None
  }

  /** The query string after `api.url + '?'`. */
  function TargetQuery(api: Connection.Api, key: string, id: nat, data: Value): string {
    Assemble(QueryString.Query(FirstParams(key, id)), CredentialsPart(api), DataPart(data))
  }

  /** The pairs a truthy value contributes to the query string. */
  function EntriesOf(v: Value): seq<(string, string)> {
    if Truthy(v) then QueryString.Entries(OwnProps(v), OwnProps(v).keys) else []
  }

  lemma FirstParamsRoundTrip(key: string, id: nat)
    ensures QueryString.ParseQuery(QueryString.Query(FirstParams(key, id)))
      == Some([("callback", JsonpRequest.CallbackName(key, id)), ("format", "jsonp")])
    ensures QueryString.Query(FirstParams(key, id)) != ""
  {
    var v := FirstParams(key, id);
    var d := OwnProps(v);
    var name := JsonpRequest.CallbackName(key, id);
    assert d.keys[..1] == ["callback"] && d.keys[..1][..0] == [];
    assert QueryString.Entries(d, []) == [];
    assert Lookup(d, "callback") == Str(name);
    assert QueryString.Entries(d, ["callback"]) == [("callback", name)];
    assert Lookup(d, "format") == Str("jsonp");
    assert QueryString.Entries(d, ["callback", "format"]) == [("callback", name), ("format", "jsonp")];
    QueryString.QueryRoundTrip(v);
  }

  lemma AppendAssoc(a: string, b: string, c: string)
    ensures (a + b) + c == a + (b + c)
  {
  }

  lemma AssembleParse(first: string, creds: Option<string>, data: Option<string>,
                      e0: seq<(string, string)>, e1: seq<(string, string)>, e2: seq<(string, string)>)
    requires first != "" && QueryString.ParseQuery(first) == Some(e0)
    requires creds.Some? ==> creds.value != "" && QueryString.ParseQuery(creds.value) == Some(e1)
    requires creds.None? ==> e1 == []
    requires data.Some? ==> data.value != "" && QueryString.ParseQuery(data.value) == Some(e2)
    requires data.None? ==> e2 == []
    ensures QueryString.ParseQuery(Assemble(first, creds, data)) == Some(e0 + e1 + e2)
  {
    var head := After(first, creds);
    assert head != "";
    assert QueryString.ParseQuery(head) == Some(e0 + e1) by {
      if creds.Some? {
        AppendAssoc(first, "&", creds.value);
        QueryString.ParseQueryConcat(first, creds.value);
      } else {
        assert head == first;
        assert e0 + e1 == e0;
      }
    }
    if data.Some? {
      AppendAssoc(head, "&", data.value);
      QueryString.ParseQueryConcat(head, data.value);
    } else {
      assert e0 + e1 + e2 == e0 + e1;
    }
  }

  /**
   * Reading the script URL's query string back gives the callback and the
   * format first, then the credentials, then the data, each property as
   * `paramify` serialised it; provided that each part after an `&`
   * serialises to something (a part with no property left would leave a
   * dangling `&`).
   */
  lemma TargetQueryRoundTrip(api: Connection.Api, key: string, id: nat, data: Value)
    requires api.credentials.Some? ==> QueryString.Query(Request.CredentialsValue(api.credentials)) != ""
    requires Truthy(data) ==> QueryString.Query(data) != ""
    ensures QueryString.ParseQuery(TargetQuery(api, key, id, data)) == Some(
      [("callback", JsonpRequest.CallbackName(key, id)), ("format", "jsonp")]
      + EntriesOf(Request.CredentialsValue(api.credentials)) + EntriesOf(data))
  {
    var creds := Request.CredentialsValue(api.credentials);
    FirstParamsRoundTrip(key, id);
    QueryString.QueryRoundTrip(creds);
    QueryString.QueryRoundTrip(data);
    AssembleParse(QueryString.Query(FirstParams(key, id)), CredentialsPart(api), DataPart(data),
      [("callback", JsonpRequest.CallbackName(key, id)), ("format", "jsonp")], EntriesOf(creds), EntriesOf(data));
  }

  /** The module's `callbackHolder` (also published as `window[callbackHolderKey]`). */
  class Holder {
    const key: string
    var handlers: map<nat, Callbacks.Pending>

    /** Loading the module: the key is stamped with the load time and nothing is pending. */
    constructor (loadTime: nat)
      ensures key == JsonpRequest.HolderKey(loadTime) && handlers == map[]
    {
      key := JsonpRequest.HolderKey(loadTime);
      handlers := map[];
    }

    /**
     * `generateCallbackId()`: start from the clock and step past pending
     * ids; the result is the least free id at or after `now`.
     */
    method GenerateCallbackId(now: nat) returns (id: nat)
      ensures id >= now && id !in handlers
      ensures forall j :: now <= j < id ==> j in handlers
      ensures now !in handlers ==> id == now
    {
      id := now;
      while id in handlers
        invariant id >= now
        invariant forall j :: now <= j < id ==> j in handlers
        decreases set j | j in handlers && j >= id
      {
        ghost var above := set j | j in handlers && j >= id;
        ghost var next := set j | j in handlers && j >= id + 1;
        assert id in above && id !in next;
        assert next <= above;
        id := id + 1;
      }
    }

    /**
     * `jsonp(data, resultNames, callback)` as written: the id is generated
     * and the handler registered before `api.url` is read, so without a
     * stored connection the call throws a TypeError and leaves its handler
     * registered for a script that is never inserted.
     */
    method JsonpAsWritten(instance: Option<Connection.Api>, data: Value, resultNames: Value,
                          callback: Callbacks.Callback, now: nat)
      returns (id: nat, target: Result<string, Thrown>)
      modifies this
      ensures id >= now && id !in old(handlers)
      ensures handlers == old(handlers)[id := Callbacks.Pending(resultNames, callback)]
      ensures instance.None? ==> target.Failure? && target.error.TypeError? && id in handlers
      ensures instance.Some? ==>
        target == Success(instance.value.url + "?" + TargetQuery(instance.value, key, id, data))
    {
      id := GenerateCallbackId(now);
      handlers := handlers[id := Callbacks.Pending(resultNames, callback)];
      if instance.None? {
        return id, Failure(TypeError("Cannot read property 'url' of null"));
      }
      target := BuildTarget(instance.value, id, data);
    }

    /**
     * `jsonp` with the connection read first, as the later `Requestor` does:
     * without a connection nothing is registered and the call fails with
     * the library's own error.
     */
    method Jsonp(instance: Option<Connection.Api>, data: Value, resultNames: Value,
                 callback: Callbacks.Callback, now: nat)
      returns (id: nat, target: Result<string, Thrown>)
      modifies this
      ensures instance.None? ==> handlers == old(handlers) && target == Failure(Error("No connection has been made"))
      ensures instance.Some? ==>
        id >= now && id !in old(handlers)
        && handlers == old(handlers)[id := Callbacks.Pending(resultNames, callback)]
        && target == Success(instance.value.url + "?" + TargetQuery(instance.value, key, id, data))
    {
      if instance.None? {
        return now, Failure(Error("No connection has been made"));
      }
      id := GenerateCallbackId(now);
      handlers := handlers[id := Callbacks.Pending(resultNames, callback)];
      target := BuildTarget(instance.value, id, data);
    }

    /** `var target = api.url + '?' + ...; target += ...; target += ...` */
    method BuildTarget(api: Connection.Api, id: nat, data: Value) returns (target: Result<string, Thrown>)
      ensures target == Success(api.url + "?" + TargetQuery(api, key, id, data))
    {
      var first := QueryString.Paramify(FirstParams(key, id));
      var t := api.url + "?" + first;
      ghost var query := first;
      ghost var creds: Option<string> := None;
      ghost var rest: Option<string> := None;
      if api.credentials.Some? {
        var c := QueryString.Paramify(Request.CredentialsValue(api.credentials));
        AppendAssoc(api.url + "?", query, "&" + c);
        t := t + ("&" + c);
        query := query + ("&" + c);
        creds := Some(c);
      }
      assert query == After(first, creds);
      ghost var head := query;
      if Truthy(data) {
        var d := QueryString.Paramify(data);
        AppendAssoc(api.url + "?", query, "&" + d);
        t := t + ("&" + d);
        query := query + ("&" + d);
        rest := Some(d);
      }
      assert query == After(head, rest);
      assert creds == CredentialsPart(api);
      assert rest == DataPart(data);
      target := Success(t);
    }

    /**
     * The server's script calling the handler: it projects the response,
     * deletes its own entry and no other, and forwards both values.
     */
    method Invoke(id: nat, response: Value) returns (r: Result<Callbacks.Call, Thrown>)
      modifies this
      ensures id in old(handlers) ==>
        handlers == old(handlers) - {id}
        && r == Success(Callbacks.Complete(old(handlers)[id], response))
      ensures id !in old(handlers) ==> handlers == old(handlers) && r.Failure? && r.error.TypeError?
    {
      if id !in handlers {
        return Failure(TypeError(JsonpRequest.CallbackName(key, id) + " is not a function"));
      }
      var pending := handlers[id];
      handlers := handlers - {id};
      r := Success(Callbacks.Complete(pending, response));
    }
  }
}
