/**
 * The public facade (`YOURLS`, `URL` and `DB` in dist/yourls.js; the same
 * shaping in src/yourls.js, src/yourls-url.js and src/yourls-db.js): each
 * call either changes the stored connection or shapes its arguments into
 * the `data`, result names and callback it hands to `sendRequest`.
 */
module Facade {
  import opened Wrappers
  import opened JsValues
  import Connection
  import Callbacks
  import QueryString

  /** `connect(url, credentials, options)`: a new descriptor replaces the stored one; if building it throws, nothing changes. */
  method Connect(slot: Connection.ConnectionSlot, url: Value, credentials: Value, options: Value)
    returns (r: Result<Connection.Api, Thrown>)
    modifies slot
    ensures r == Connection.NewApi(url, credentials, options)
    ensures r.Success? ==> slot.instance == Some(r.value)
    ensures r.Failure? ==> slot.instance == old(slot.instance)
  {
    r := Connection.NewApi(url, credentials, options);
    if r.Success? {
      slot.Store(r.value);
    }
  }

  /** `disconnect()`: the stored descriptor is dropped. */
  method Disconnect(slot: Connection.ConnectionSlot)
    modifies slot
    ensures slot.instance == None
  {
    slot.Clear();
  }

  /** What a facade call hands to `sendRequest(data, resultNames, callback)`. */
  datatype Payload = Payload(data: Dict, names: Value, callback: Callbacks.Callback)

  /** `{ action: action }` */
  function ActionData(action: string): Dict {
    Dict(["action"], map["action" := Str(action)])
  }

  /**
   * `shorten(url, descriptor, callback)`: a function descriptor is the
   * callback; a string descriptor is the keyword; any truthy descriptor
   * then has its `keyword` and `title` copied, undefined ones included.
   */
  function Shorten(url: Value, descriptor: Value, callback: Value): Payload {
    var cb := if descriptor.Fn? then descriptor else callback;
    var d := if descriptor.Fn? then Null
             else if descriptor.Str? then Obj(Dict(["keyword"], map["keyword" := descriptor]))
             else descriptor;
    var shaped := if Truthy(d) then DescriptorData(url, d) else ShortenData(url);
    Payload(shaped, Arr([Str("shorturl"), Str("title"), Str("url")]), Callbacks.Plain(cb))
  }

  /** `{ action: 'shorturl', url: url }` */
  function ShortenData(url: Value): (r: Dict)
    ensures Wf(r) && r.keys == ["action", "url"]
    ensures Lookup(r, "action") == Str("shorturl") && Lookup(r, "url") == url
  {
    Dict(["action", "url"], map["action" := Str("shorturl"), "url" := url])
  }

  /** The shorten data after `data.keyword = d.keyword; data.title = d.title`. */
  function DescriptorData(url: Value, d: Value): (r: Dict)
    ensures Wf(r) && r.keys == ["action", "url", "keyword", "title"]
    ensures Lookup(r, "action") == Str("shorturl") && Lookup(r, "url") == url
    ensures Lookup(r, "keyword") == Get(d, "keyword") && Lookup(r, "title") == Get(d, "title")
  {
    Dict(["action", "url", "keyword", "title"],
         map["action" := Str("shorturl"), "url" := url, "keyword" := Get(d, "keyword"), "title" := Get(d, "title")])
  }

  /**
   * What every `shorten` call sends: the action and the long URL lead the
   * data, the result names are fixed, and a function descriptor takes the
   * place of the callback.
   */
  lemma ShortenShaping(url: Value, descriptor: Value, callback: Value)
    ensures var p := Shorten(url, descriptor, callback);
      Wf(p.data) && p.data.keys[..2] == ["action", "url"]
      && Lookup(p.data, "action") == Str("shorturl") && Lookup(p.data, "url") == url
      && p.names == Arr([Str("shorturl"), Str("title"), Str("url")])
    ensures Shorten(url, descriptor, callback).callback
      == Callbacks.Plain(if descriptor.Fn? then descriptor else callback)
  {
    var p := Shorten(url, descriptor, callback);
    if p.data == ShortenData(url) {
    } else {
      var d := if descriptor.Str? then Obj(Dict(["keyword"], map["keyword" := descriptor])) else descriptor;
      assert p.data == DescriptorData(url, d);
    }
    assert p.data.keys[..2] == ["action", "url"];
  }

  /** A function descriptor, and a falsy one other than a string, add no keyword and no title. */
  lemma ShortenPlain(url: Value, descriptor: Value, callback: Value)
    requires descriptor.Fn? || (!Truthy(descriptor) && !descriptor.Str?)
    ensures Shorten(url, descriptor, callback).data.keys == ["action", "url"]
  {
    assert Shorten(url, descriptor, callback).data == ShortenData(url);
  }

  /**
   * A string descriptor, even an empty one, becomes the keyword, with an
   * undefined title; an object descriptor has its keyword and title copied.
   */
  lemma ShortenKeyword(url: Value, descriptor: Value, callback: Value)
    requires descriptor.Str? || descriptor.Obj?
    ensures var p := Shorten(url, descriptor, callback);
      p.data.keys == ["action", "url", "keyword", "title"]
    ensures var p := Shorten(url, descriptor, callback);
      descriptor.Str? ==> Lookup(p.data, "keyword") == descriptor && Lookup(p.data, "title") == Undefined
    ensures var p := Shorten(url, descriptor, callback);
      descriptor.Obj? ==> (Lookup(p.data, "keyword") == Lookup(descriptor.d, "keyword")
        && Lookup(p.data, "title") == Lookup(descriptor.d, "title"))
  {
    var p := Shorten(url, descriptor, callback);
    if descriptor.Str? {
      var d := Obj(Dict(["keyword"], map["keyword" := descriptor]));
      assert Get(d, "keyword") == descriptor && Get(d, "title") == Undefined;
      assert p.data == DescriptorData(url, d);
    } else {
      assert p.data == DescriptorData(url, descriptor);
    }
  }

  /**
   * `stats(criteria, callback)`: a function is the callback; a number, zero
   * and NaN included, is the limit; any truthy criteria then have `filter`,
   * `limit` and `start` copied. The caller's callback is wrapped so that it
   * receives the sanitised result.
   */
  function Stats(criteria: Value, callback: Value): Payload {
    var cb := if criteria.Fn? then criteria else callback;
    var c := if criteria.Fn? then Null
             else if criteria.Num? || criteria.NaN? then Obj(Dict(["limit"], map["limit" := criteria]))
             else criteria;
    var data := ActionData("stats");
    var shaped := if Truthy(c) then CriteriaData(c) else data;
    Payload(shaped, Arr([Str("links"), Str("stats")]), Callbacks.SanitizingStats(cb))
  }

  /**
   * The overloads of `stats`: a function becomes the callback and adds no
   * criteria; a number, even 0 or NaN, is the limit, with filter and start
   * undefined; an object has filter, limit and start copied; any other
   * falsy criteria add nothing. The callback is always wrapped.
   */
  lemma StatsShaping(criteria: Value, callback: Value)
    ensures var p := Stats(criteria, callback);
      Wf(p.data) && p.data.keys[0] == "action" && Lookup(p.data, "action") == Str("stats")
      && p.names == Arr([Str("links"), Str("stats")])
    ensures var p := Stats(criteria, callback);
      p.callback == Callbacks.SanitizingStats(if criteria.Fn? then criteria else callback)
    ensures var p := Stats(criteria, callback);
      criteria.Fn? || (!Truthy(criteria) && !criteria.Num? && !criteria.NaN?) ==> p.data.keys == ["action"]
    ensures var p := Stats(criteria, callback);
      criteria.Num? || criteria.NaN? ==> (p.data.keys == ["action", "filter", "limit", "start"]
        && Lookup(p.data, "limit") == criteria
        && Lookup(p.data, "filter") == Undefined && Lookup(p.data, "start") == Undefined)
    ensures var p := Stats(criteria, callback);
      criteria.Obj? ==> (p.data.keys == ["action", "filter", "limit", "start"]
        && Lookup(p.data, "filter") == Lookup(criteria.d, "filter")
        && Lookup(p.data, "limit") == Lookup(criteria.d, "limit")
        && Lookup(p.data, "start") == Lookup(criteria.d, "start"))
  {
    var p := Stats(criteria, callback);
    if criteria.Num? || criteria.NaN? || criteria.Obj? {
      var c := if criteria.Obj? then criteria else Obj(Dict(["limit"], map["limit" := criteria]));
      assert p.data == CriteriaData(c);
    }
  }

  /** The stats data after `data.filter = c.filter; data.limit = c.limit; data.start = c.start`. */
  function CriteriaData(c: Value): (r: Dict)
    ensures Wf(r) && r.keys == ["action", "filter", "limit", "start"]
    ensures Lookup(r, "action") == Str("stats") && Lookup(r, "filter") == Get(c, "filter")
    ensures Lookup(r, "limit") == Get(c, "limit") && Lookup(r, "start") == Get(c, "start")
  {
    Dict(["action", "filter", "limit", "start"],
         map["action" := Str("stats"), "filter" := Get(c, "filter"), "limit" := Get(c, "limit"), "start" := Get(c, "start")])
  }

  /**
   * A number given as the criteria reaches the server as the limit alone:
   * the undefined filter and start are not serialised.
   */
  lemma StatsLimitOnly(n: int)
    ensures QueryString.Entries(Stats(Num(n), Null).data, Stats(Num(n), Null).data.keys)
      == [("action", "stats"), ("limit", ToStr(Num(n)))]
  {
    var d := CriteriaData(Obj(Dict(["limit"], map["limit" := Num(n)])));
    assert Stats(Num(n), Null).data == d;
    CriteriaEntries(d, Num(n));
  }

  lemma CriteriaEntries(d: Dict, limit: Value)
    requires d.keys == ["action", "filter", "limit", "start"]
    requires Lookup(d, "action") == Str("stats") && Lookup(d, "limit") == limit && !IsNullish(limit)
    requires Lookup(d, "filter") == Undefined && Lookup(d, "start") == Undefined
    ensures QueryString.Entries(d, d.keys) == [("action", "stats"), ("limit", ToStr(limit))]
  {
    var ks := d.keys;
    assert ks[..1][..0] == [];
    assert QueryString.Entries(d, ks[..1]) == [("action", "stats")];
    assert ks[..2][..1] == ks[..1];
    assert QueryString.Entries(d, ks[..2]) == [("action", "stats")];
    assert ks[..3][..2] == ks[..2];
    assert QueryString.Entries(d, ks[..3]) == [("action", "stats"), ("limit", ToStr(limit))];
    assert ks[..4][..3] == ks[..3];
    assert ks[..4] == ks;
  }

  /**
   * `version(db, callback)` (dist/yourls.js): a function is the callback;
   * otherwise a `db` that is not null or undefined is sent as `Number(db)`.
   */
  function Version(db: Value, callback: Value): Payload {
    var cb := if db.Fn? then db else callback;
    var flag := if db.Fn? then Null else db;
    var data := if !IsNullish(flag) then Put(ActionData("version"), "db", ToNumber(flag)) else ActionData("version");
    Payload(data, Arr([Str("db_version"), Str("version")]), Callbacks.Plain(cb))
  }

  lemma VersionShaping(db: Value, callback: Value)
    ensures var p := Version(db, callback);
      Lookup(p.data, "action") == Str("version") && p.names == Arr([Str("db_version"), Str("version")])
    ensures var p := Version(db, callback);
      db.Fn? ==> p.callback == Callbacks.Plain(db) && p.data.keys == ["action"]
    ensures var p := Version(db, callback);
      !db.Fn? ==> p.callback == Callbacks.Plain(callback)
    ensures var p := Version(db, callback);
      IsNullish(db) ==> p.data.keys == ["action"]
    ensures var p := Version(db, callback);
      !db.Fn? && !IsNullish(db) ==>
        p.data.keys == ["action", "db"] && Lookup(p.data, "db") == ToNumber(db)
        && (Lookup(p.data, "db").Num? || Lookup(p.data, "db").NaN?)
    ensures Lookup(Version(Bool(true), Null).data, "db") == Num(1)
    ensures Lookup(Version(Bool(false), Null).data, "db") == Num(0)
  {
  }

  /** A call that sends its action alone and asks for one result name. */
  function SingleAction(action: string, name: string, callback: Value): (p: Payload)
    ensures p.data.keys == ["action"] && Lookup(p.data, "action") == Str(action)
    ensures p.names == Str(name) && p.callback == Callbacks.Plain(callback)
  {
    Payload(ActionData(action), Str(name), Callbacks.Plain(callback))
  }

  /** `version(callback)` (src/yourls.js): no options, and the single name `version`. */
  function VersionOnly(callback: Value): (p: Payload)
    ensures p.data.keys == ["action"] && Lookup(p.data, "action") == Str("version")
    ensures p.names == Str("version") && p.callback == Callbacks.Plain(callback)
  {
    SingleAction("version", "version", callback)
  }

  /** A `URL` handle: a shortened URL or its keyword, fetched from nothing until asked. */
  datatype UrlHandle = UrlHandle(url: Value)

  /** `url(x)`: a handle for a truthy `x`, null otherwise. */
  function Url(x: Value): (r: Option<UrlHandle>)
    ensures r.None? <==> !Truthy(x)
    ensures r.Some? ==> r.value.url == x
  {
    if Truthy(x) then Some(UrlHandle(x)) else None
  }

  /** `url.expand(callback)` */
  function Expand(u: UrlHandle, callback: Value): (p: Payload)
    ensures p.data.keys == ["action", "shorturl"]
    ensures Lookup(p.data, "action") == Str("expand") && Lookup(p.data, "shorturl") == u.url
    ensures p.names == Arr([Str("keyword"), Str("longurl"), Str("shorturl")])
    ensures p.callback == Callbacks.Plain(callback)
  {
    Payload(Dict(["action", "shorturl"], map["action" := Str("expand"), "shorturl" := u.url]),
            Arr([Str("keyword"), Str("longurl"), Str("shorturl")]), Callbacks.Plain(callback))
  }

  /** `url.stats(callback)` */
  function UrlStats(u: UrlHandle, callback: Value): (p: Payload)
    ensures p.data.keys == ["action", "shorturl"]
    ensures Lookup(p.data, "action") == Str("url-stats") && Lookup(p.data, "shorturl") == u.url
    ensures p.names == Str("link") && p.callback == Callbacks.Plain(callback)
  {
    Payload(Dict(["action", "shorturl"], map["action" := Str("url-stats"), "shorturl" := u.url]),
            Str("link"), Callbacks.Plain(callback))
  }

  /** `db.stats(callback)` */
  function DbStats(callback: Value): (p: Payload)
    ensures p.data.keys == ["action"] && Lookup(p.data, "action") == Str("db-stats")
    ensures p.names == Str("db-stats") && p.callback == Callbacks.Plain(callback)
  {
    SingleAction("db-stats", "db-stats", callback)
  }
}
