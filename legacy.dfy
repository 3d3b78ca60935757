/**
 * The original single-file client (yourls.js at the top of the
 * repository): a module-level API URL and `auth` object, a `paramify` that
 * neither encodes nor drops null, and a callback map on
 * `yourls.__jsonp_callbacks` whose handlers are one-shot.
 */
module Legacy {
  import opened Wrappers
  import opened JsValues
  import UriComponent
  import QueryString

  /** `key + '=' + params[key]` for every own property that is not undefined, in order. */
  function LegacyPairs(d: Dict, keys: seq<string>): seq<string> {
    if keys == [] then []
    else
      var k := keys[|keys| - 1];
      var v := Lookup(d, k);
      LegacyPairs(d, keys[..|keys| - 1]) + (if v.Undefined? then [] else [k + "=" + ToStr(v)])
  }

  /** The legacy query string: the pairs joined by `&`. */
  function LegacyQuery(params: Value): string {
    QueryString.Join(LegacyPairs(OwnProps(params), OwnProps(params).keys), '&')
  }

  /** `str` after the loop: each pair followed by `&`. */
  function Accumulated(parts: seq<string>): string {
    if parts == [] then "" else Accumulated(parts[..|parts| - 1]) + parts[|parts| - 1] + "&"
  }

  /** `str.replace(/&$/, '')`: one trailing `&` goes, if there is one. */
  function StripTrailingAmp(s: string): (r: string)
    ensures |s| > 0 && s[|s| - 1] == '&' ==> r + "&" == s
    ensures (|s| == 0 || s[|s| - 1] != '&') ==> r == s
  {
    if |s| > 0 && s[|s| - 1] == '&' then s[..|s| - 1] else s
  }

  /** Appending `&` after every pair and stripping the last one is joining the pairs by `&`. */
  lemma {:induction false} StripAccumulated(parts: seq<string>)
    ensures parts != [] ==> Accumulated(parts) == QueryString.Join(parts, '&') + "&"
    ensures StripTrailingAmp(Accumulated(parts)) == QueryString.Join(parts, '&')
    decreases |parts|
  {
    if parts != [] {
      var init := parts[..|parts| - 1];
      var p := parts[|parts| - 1];
      StripAccumulated(init);
      if init == [] {
        assert parts == [p];
        assert Accumulated(parts) == p + "&";
      } else {
        assert Accumulated(parts) == QueryString.Join(init, '&') + "&" + p + "&";
        assert QueryString.Join(parts, '&') == QueryString.Join(init, '&') + ['&'] + p;
      }
      var s := Accumulated(parts);
      assert s[|s| - 1] == '&';
      assert s[..|s| - 1] + "&" == s;
    }
  }

  /**
   * The legacy `paramify(params)`: a `for-in` loop appending
   * `key + '=' + params[key] + '&'` for every own property that is not
   * undefined, then one trailing `&` removed.
   */
  method LegacyParamify(params: Value) returns (s: string)
    ensures s == LegacyQuery(params)
  {
    var d := OwnProps(params);
    var str := "";
    var i := 0;
    while i < |d.keys|
      invariant 0 <= i <= |d.keys|
      invariant str == Accumulated(LegacyPairs(d, d.keys[..i]))
    {
      var key := d.keys[i];
      var v := Lookup(d, key);
      LegacyPairsStep(d, d.keys, i);
      if !v.Undefined? {
        AccumulatedSnoc(LegacyPairs(d, d.keys[..i]), key + "=" + ToStr(v));
        str := str + (key + "=" + ToStr(v)) + "&";
      } else {
        assert LegacyPairs(d, d.keys[..i]) + [] == LegacyPairs(d, d.keys[..i]);
      }
      i := i + 1;
    }
    assert d.keys[..i] == d.keys;
    StripAccumulated(LegacyPairs(d, d.keys));
    s := StripTrailingAmp(str);
  }

  lemma LegacyPairsStep(d: Dict, keys: seq<string>, i: nat)
    requires i < |keys|
    ensures LegacyPairs(d, keys[..i + 1]) == LegacyPairs(d, keys[..i])
      + (if Lookup(d, keys[i]).Undefined? then [] else [keys[i] + "=" + ToStr(Lookup(d, keys[i]))])
  {
    assert keys[..i + 1][..i] == keys[..i];
  }

  lemma AccumulatedSnoc(parts: seq<string>, p: string)
    ensures Accumulated(parts + [p]) == Accumulated(parts) + p + "&"
  {
    assert (parts + [p])[..|parts|] == parts;
  }

  /**
   * Exactly the properties that are not undefined are emitted, null
   * included, each as its raw name, `=` and its value as text: nothing is
   * percent-encoded.
   */
  lemma {:induction false} LegacyPairsMembership(d: Dict, keys: seq<string>, p: string)
    ensures p in LegacyPairs(d, keys) <==>
      exists i :: 0 <= i < |keys| && !Lookup(d, keys[i]).Undefined? && p == keys[i] + "=" + ToStr(Lookup(d, keys[i]))
    decreases |keys|
  {
    if keys != [] {
      var init := keys[..|keys| - 1];
      LegacyPairsMembership(d, init, p);
      if exists i :: 0 <= i < |keys| && !Lookup(d, keys[i]).Undefined? && p == keys[i] + "=" + ToStr(Lookup(d, keys[i])) {
        var i :| 0 <= i < |keys| && !Lookup(d, keys[i]).Undefined? && p == keys[i] + "=" + ToStr(Lookup(d, keys[i]));
        if i < |keys| - 1 {
          assert init[i] == keys[i];
        }
      }
      if exists i :: 0 <= i < |init| && !Lookup(d, init[i]).Undefined? && p == init[i] + "=" + ToStr(Lookup(d, init[i])) {
        var i :| 0 <= i < |init| && !Lookup(d, init[i]).Undefined? && p == init[i] + "=" + ToStr(Lookup(d, init[i]));
        assert keys[i] == init[i];
      }
    }
  }

  /** Unlike the current serialiser, a null value is sent, as the text `null`. */
  lemma NullIsSent(d: Dict, i: nat)
    requires i < |d.keys| && Lookup(d, d.keys[i]) == Null
    ensures d.keys[i] + "=null" in LegacyPairs(d, d.keys)
  {
    var k := d.keys[i];
    assert ToStr(Null) == "null";
    LegacyPairsMembership(d, d.keys, k + "=null");
  }

  /** No properties, or no argument at all, give the empty string. */
  lemma LegacyQueryEmpty(params: Value)
    requires !Truthy(params) || params == Obj(Empty)
    ensures LegacyQuery(params) == ""
  {
  }

  /** The credentials `connect` stores: only the signature if there is one, else password and username. */
  function LegacyAuth(credentials: Value): (r: Option<Dict>)
    ensures r.None? <==> !Truthy(credentials)
    ensures r.Some? && Truthy(Get(credentials, "signature")) ==>
      r.value.keys == ["signature"] && Lookup(r.value, "signature") == Get(credentials, "signature")
    ensures r.Some? && !Truthy(Get(credentials, "signature")) ==>
      r.value.keys == ["password", "username"]
      && Lookup(r.value, "password") == Get(credentials, "password")
      && Lookup(r.value, "username") == Get(credentials, "username")
  {
    if !Truthy(credentials) then None
    else if Truthy(Get(credentials, "signature")) then
      Some(Dict(["signature"], map["signature" := Get(credentials, "signature")]))
    else
      Some(Dict(["password", "username"], map["password" := Get(credentials, "password"), "username" := Get(credentials, "username")]))
  }

  /** A signature wins over a password, and its timestamp is not kept. */
  lemma SignatureDropsTimestamp(signature: Value, timestamp: Value, password: Value, username: Value)
    requires Truthy(signature)
    ensures var c := Obj(Dict(["signature", "timestamp", "password", "username"],
      map["signature" := signature, "timestamp" := timestamp, "password" := password, "username" := username]));
      LegacyAuth(c) == Some(Dict(["signature"], map["signature" := signature]))
  {
  }

  /** A stored callback and the `this` it is applied with. */
  datatype Handler = Handler(callback: Value, context: Value)

  /** What a handler does after deleting itself: `callback.apply(context, arguments)`. */
  datatype Delivery = Delivery(callback: Value, context: Value, arguments: seq<Value>)

  /** `'yourls.__jsonp_callbacks[' + id + ']'` */
  function CallbackRef(id: nat): string {
    "yourls.__jsonp_callbacks[" + NatStr(id) + "]"
  }

  /** The `src` of the script tag. */
  function ScriptSource(api: Value, id: nat, query: string, auth: Dict): string {
    ToStr(api)
      + ("?format=jsonp&callback=" + UriComponent.Encode(CallbackRef(id)) + "&" + query
         + ("&" + LegacyQuery(Obj(auth))))
  }

  /**
   * The script address starts with the API URL and the fixed format and
   * callback parameters, and the callback reference, once decoded, names
   * the map entry that holds the handler; it is the only parameter the
   * encoding protects from `&`.
   */
  lemma ScriptSourceParts(api: Value, id: nat, query: string, auth: Dict)
    ensures var prefix := ToStr(api) + "?format=jsonp&callback=";
      var ref := UriComponent.Encode(CallbackRef(id));
      ScriptSource(api, id, query, auth) == prefix + ref + "&" + query + "&" + LegacyQuery(Obj(auth))
      && '&' !in ref
      && UriComponent.Decode(ref) == Some(CallbackRef(id))
  {
    var a, b, ref := ToStr(api), "?format=jsonp&callback=", UriComponent.Encode(CallbackRef(id));
    var tail := "&" + LegacyQuery(Obj(auth));
    ConcatAssoc(a, b + ref + "&" + query, tail);
    ConcatAssoc(a, b + ref + "&", query);
    ConcatAssoc(a, b + ref, "&");
    ConcatAssoc(a, b, ref);
    ConcatAssoc(a + b + ref + "&" + query, "&", LegacyQuery(Obj(auth)));
    UriComponent.EncodeHasNoSeparators(CallbackRef(id));
    UriComponent.DecodeEncode(CallbackRef(id));
  }

  lemma ConcatAssoc(a: string, b: string, c: string)
    ensures a + (b + c) == a + b + c
  {
  }

  /** A legacy call: the data to serialise and the callback to register. */
  datatype LegacyCall = LegacyCall(data: Dict, callback: Value)

  /** `shorten(url, keyword, callback)`: a function keyword is the callback; anything else is sent as the keyword. */
  function Shorten(url: Value, keyword: Value, callback: Value): LegacyCall {
    var data := Dict(["action", "url"], map["action" := Str("shorturl"), "url" := url]);
    if keyword.Fn? then LegacyCall(data, keyword) else LegacyCall(Put(data, "keyword", keyword), callback)
  }

  /**
   * The overloads of legacy `shorten`: a function keyword becomes the
   * callback and no keyword is sent; any other, null included, is copied
   * into the data.
   */
  lemma ShortenShaping(url: Value, keyword: Value, callback: Value)
    ensures var c := Shorten(url, keyword, callback);
      Lookup(c.data, "action") == Str("shorturl") && Lookup(c.data, "url") == url
    ensures var c := Shorten(url, keyword, callback);
      keyword.Fn? ==> c.callback == keyword && c.data.keys == ["action", "url"]
    ensures var c := Shorten(url, keyword, callback);
      !keyword.Fn? ==> (c.callback == callback && c.data.keys == ["action", "url", "keyword"]
        && Lookup(c.data, "keyword") == keyword)
  {
  }

  /**
   * `stats(filter, limit, callback)`: a number is the limit and the next
   * argument the callback; a function is the callback; anything else is the
   * filter, followed by a callback or by the limit.
   */
  function Stats(filter: Value, limit: Value, callback: Value): LegacyCall {
    var data := Dict(["action"], map["action" := Str("stats")]);
    if filter.Num? || filter.NaN? then LegacyCall(Put(data, "limit", filter), limit)
    else if filter.Fn? then LegacyCall(data, filter)
    else if limit.Fn? then LegacyCall(Put(data, "filter", filter), limit)
    else LegacyCall(Put(Put(data, "filter", filter), "limit", limit), callback)
  }

  lemma StatsShaping(filter: Value, limit: Value, callback: Value)
    ensures var c := Stats(filter, limit, callback);
      Lookup(c.data, "action") == Str("stats") && c.data.keys[0] == "action"
    ensures var c := Stats(filter, limit, callback);
      filter.Num? || filter.NaN? ==>
        c.data.keys == ["action", "limit"] && Lookup(c.data, "limit") == filter && c.callback == limit
    ensures var c := Stats(filter, limit, callback);
      filter.Fn? ==> c.data.keys == ["action"] && c.callback == filter
    ensures var c := Stats(filter, limit, callback);
      !filter.Num? && !filter.NaN? && !filter.Fn? && limit.Fn? ==>
        c.data.keys == ["action", "filter"] && Lookup(c.data, "filter") == filter && c.callback == limit
    ensures var c := Stats(filter, limit, callback);
      !filter.Num? && !filter.NaN? && !filter.Fn? && !limit.Fn? ==>
        c.data.keys == ["action", "filter", "limit"] && Lookup(c.data, "filter") == filter
        && Lookup(c.data, "limit") == limit && c.callback == callback
  {
  }

  /** `url(u).expand(callback)` and `url(u).stats(callback)`: constant actions on the held URL. */
  function UrlCall(action: string, url: Value, callback: Value): (c: LegacyCall)
    requires action == "expand" || action == "url-stats"
    ensures c.data.keys == ["action", "shorturl"] && c.callback == callback
    ensures Lookup(c.data, "action") == Str(action) && Lookup(c.data, "shorturl") == url
  {
    LegacyCall(Dict(["action", "shorturl"], map["action" := Str(action), "shorturl" := url]), callback)
  }

  /** The module state of the legacy client. */
  class LegacyClient {
    var api: Value
    var auth: Dict
    var callbacks: map<nat, Handler>

    /** At load: the default endpoint, no credentials, no pending callbacks. */
    constructor ()
      ensures api == Str("/yourls-api.php") && auth == Empty && callbacks == map[]
    {
      api := Str("/yourls-api.php");
      auth := Empty;
      callbacks := map[];
    }

    /**
     * `connect(url, credentials)`: the endpoint is always replaced; the
     * credentials only when some are given, so a falsy argument keeps the
     * previous ones.
     */
    method Connect(url: Value, credentials: Value)
      modifies this
      ensures api == url && callbacks == old(callbacks)
      ensures auth == if LegacyAuth(credentials).Some? then LegacyAuth(credentials).value else old(auth)
    {
      api := url;
      var a := LegacyAuth(credentials);
      if a.Some? {
        auth := a.value;
      }
    }

    /**
     * `jsonp(query, callback, context)`: the id is the clock reading, moved
     * on while the map holds it; the handler is stored under it and the
     * script address assembled from the API URL, the callback reference, the
     * query and the serialised credentials.
     */
    method Jsonp(query: string, callback: Value, context: Value, now: nat) returns (id: nat, src: string)
      modifies this
      ensures id >= now && id !in old(callbacks)
      ensures now !in old(callbacks) ==> id == now
      ensures callbacks == old(callbacks)[id := Handler(callback, context)]
      ensures api == old(api) && auth == old(auth)
      ensures src == ScriptSource(api, id, query, auth)
    {
      id := FreeId(now);
      callbacks := callbacks[id := Handler(callback, context)];
      var credentials := LegacyParamify(Obj(auth));
      var url := "?format=jsonp&callback=" + UriComponent.Encode(CallbackRef(id)) + "&" + query;
      url := url + ("&" + credentials);
      src := ToStr(api) + url;
    }

    /** The id loop of `jsonp`: the first id from the clock reading on that the map does not hold. */
    method FreeId(now: nat) returns (id: nat)
      ensures id >= now && id !in callbacks
      ensures now !in callbacks ==> id == now
      ensures forall j :: now <= j < id ==> j in callbacks
    {
      id := now;
      while id in callbacks
        invariant id >= now
        invariant forall j :: now <= j < id ==> j in callbacks
        decreases set j | j in callbacks && j >= id
      {
        ghost var above := set j | j in callbacks && j >= id;
        ghost var next := set j | j in callbacks && j >= id + 1;
        assert id in above && id !in next;
        assert next <= above;
        id := id + 1;
      }
    }

    /** `jsonp(paramify(data), callback, context)`, as every legacy call ends. */
    method Send(call: LegacyCall, context: Value, now: nat) returns (id: nat, src: string)
      modifies this
      ensures id >= now && id !in old(callbacks)
      ensures callbacks == old(callbacks)[id := Handler(call.callback, context)]
      ensures api == old(api) && auth == old(auth)
      ensures src == ScriptSource(api, id, LegacyQuery(Obj(call.data)), auth)
    {
      var query := LegacyParamify(Obj(call.data));
      id, src := Jsonp(query, call.callback, context, now);
    }

    /**
     * The server's script calling the stored function: it deletes its own
     * entry, and only that one, before applying the callback to the
     * arguments; an id not in the map has no function to call.
     */
    method Invoke(id: nat, arguments: seq<Value>) returns (r: Result<Delivery, Thrown>)
      modifies this
      ensures r.Success? <==> id in old(callbacks)
      ensures callbacks == old(callbacks) - {id}
      ensures r.Success? ==>
        r.value == Delivery(old(callbacks)[id].callback, old(callbacks)[id].context, arguments)
      ensures api == old(api) && auth == old(auth)
    {
      if id !in callbacks {
        return Failure(TypeError(CallbackRef(id) + " is not a function"));
      }
      var h := callbacks[id];
      callbacks := callbacks - {id};
      r := Success(Delivery(h.callback, h.context, arguments));
    }
  }
}
