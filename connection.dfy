/**
 * The connection descriptor `API` and its singleton slot (src/api.js, and the
 * `API` of dist/yourls.js, which adds the request options): the server URL
 * without its trailing slash, the sanitised credentials, the sanitised
 * options, and `store`/`fetch`/`clear` on the one stored instance.
 */
module Connection {
  import opened Wrappers
  import opened JsValues

  /**
   * Sanitised credentials: a signature with its timestamp, or a password with
   * its user name. Either field may hold undefined when it was not supplied.
   */
  datatype Credentials =
    | Signed(signature: Value, timestamp: Value)
    | Basic(password: Value, username: Value)

  /** The object `sanitizeCredentials` builds, with its properties in creation order. */
  function CredentialsObject(c: Credentials): (r: Dict)
    ensures Wf(r) && |r.keys| == 2
    ensures c.Signed? ==>
      (r.keys == ["signature", "timestamp"]
       && Lookup(r, "signature") == c.signature && Lookup(r, "timestamp") == c.timestamp)
    ensures c.Basic? ==>
      (r.keys == ["password", "username"]
       && Lookup(r, "password") == c.password && Lookup(r, "username") == c.username)
  {
    match c
    case Signed(s, t) => Dict(["signature", "timestamp"], map["signature" := s, "timestamp" := t])
    case Basic(p, u) => Dict(["password", "username"], map["password" := p, "username" := u])
  }

  /**
   * `sanitizeCredentials(credentials)`: null for falsy credentials, otherwise
   * a new object that holds the signature and timestamp when the signature is
   * truthy, and the password and user name when it is not.
   */
  function SanitizeCredentials(credentials: Value): (r: Option<Credentials>)
    ensures r.None? <==> !Truthy(credentials)
    ensures r.Some? && Truthy(Get(credentials, "signature")) ==>
      r.value == Signed(Get(credentials, "signature"), Get(credentials, "timestamp"))
    ensures r.Some? && !Truthy(Get(credentials, "signature")) ==>
      r.value == Basic(Get(credentials, "password"), Get(credentials, "username"))
  {
    if !Truthy(credentials) then None
    else if Truthy(Get(credentials, "signature")) then
      Some(Signed(Get(credentials, "signature"), Get(credentials, "timestamp")))
    else Some(Basic(Get(credentials, "password"), Get(credentials, "username")))
  }

  /**
   * A truthy signature wins: the sanitised object keeps no password or user
   * name even when the caller supplied them, while an empty object still
   * sanitises to an object (it is truthy), never to null.
   */
  lemma SignatureTakesPrecedence(credentials: Value)
    requires Truthy(credentials)
    ensures SanitizeCredentials(credentials).Some?
    ensures var o := CredentialsObject(SanitizeCredentials(credentials).value);
      Truthy(Get(credentials, "signature")) ==>
        "password" !in o.vals && "username" !in o.vals
        && Lookup(o, "signature") == Get(credentials, "signature")
    ensures var o := CredentialsObject(SanitizeCredentials(credentials).value);
      !Truthy(Get(credentials, "signature")) ==>
        "signature" !in o.vals && "timestamp" !in o.vals
        && Lookup(o, "password") == Get(credentials, "password")
        && Lookup(o, "username") == Get(credentials, "username")
  {
    var o := CredentialsObject(SanitizeCredentials(credentials).value);
    assert forall k :: k in o.vals <==> k in o.keys;
  }

  /** The request options: the response format and the HTTP method. */
  datatype Options = Options(format: string, httpMethod: string)

  /** `API.defaultOptions`. */
  const DefaultOptions: Options := Options("jsonp", "GET")

  /**
   * `API._sanitizeOptions(options)`: a copy of the defaults, with a truthy
   * `format` lower-cased and a truthy `method` upper-cased in their place; a
   * truthy value that is not a string has no `toLowerCase`/`toUpperCase` and
   * throws a TypeError. No other option is kept.
   */
  function SanitizeOptions(options: Value): (r: Result<Options, Thrown>)
    ensures !Truthy(options) ==> r == Success(DefaultOptions)
    ensures r.Success? ==> |r.value.format| > 0 && |r.value.httpMethod| > 0
    ensures r.Failure? <==>
      (Truthy(Get(options, "format")) && !Get(options, "format").Str?)
      || (Truthy(Get(options, "method")) && !Get(options, "method").Str?)
  {
    if !Truthy(options) then Success(DefaultOptions)
    else
      var format := Get(options, "format");
      var m := Get(options, "method");
      if Truthy(format) && !format.Str? then Failure(TypeError("options.format.toLowerCase is not a function"))
      else if Truthy(m) && !m.Str? then Failure(TypeError("options.method.toUpperCase is not a function"))
      else
        Success(Options(
          if Truthy(format) then ToLower(format.s) else DefaultOptions.format,
          if Truthy(m) then ToUpper(m.s) else DefaultOptions.httpMethod))
  }

  /** A supplied format is lower-cased and a supplied method upper-cased; a missing one keeps its default. */
  lemma SanitizedOptionsCase(options: Value)
    requires SanitizeOptions(options).Success?
    ensures var o := SanitizeOptions(options).value;
      (forall i :: 0 <= i < |o.format| ==> !IsUpperAscii(o.format[i]))
      && (forall i :: 0 <= i < |o.httpMethod| ==> !IsLowerAscii(o.httpMethod[i]))
    ensures var f := Get(options, "format");
      SanitizeOptions(options).value.format == if Truthy(options) && Truthy(f) then ToLower(f.s) else "jsonp"
    ensures var m := Get(options, "method");
      SanitizeOptions(options).value.httpMethod == if Truthy(options) && Truthy(m) then ToUpper(m.s) else "GET"
  {
    var o := SanitizeOptions(options).value;
    forall i | 0 <= i < |o.format| ensures !IsUpperAscii(o.format[i]) {
      if Truthy(options) && Truthy(Get(options, "format")) {
        assert o.format[i] == LowerChar(Get(options, "format").s[i]);
      } else {
        assert o.format == "jsonp";
      }
    }
    forall i | 0 <= i < |o.httpMethod| ensures !IsLowerAscii(o.httpMethod[i]) {
      if Truthy(options) && Truthy(Get(options, "method")) {
        assert o.httpMethod[i] == UpperChar(Get(options, "method").s[i]);
      } else {
        assert o.httpMethod == "GET";
      }
    }
  }

  /** `url.replace(/\/$/, '')`: one trailing slash, if there is one, is removed. */
  function StripTrailingSlash(url: string): string {
    if url != [] && url[|url| - 1] == '/' then url[..|url| - 1] else url
  }

  /** Exactly one slash goes: putting it back gives the URL, and only a slash can have gone. */
  lemma StripTrailingSlashExact(url: string)
    ensures var r := StripTrailingSlash(url);
      (r == url && (url == [] || url[|url| - 1] != '/'))
      || (r + "/" == url)
    ensures |StripTrailingSlash(url)| >= |url| - 1
  {
  }

  /** A connection descriptor. */
  datatype Api = Api(url: string, credentials: Option<Credentials>, options: Options)

  /**
   * `new API(url, credentials, options)`: a falsy URL becomes `''`, a string
   * loses one trailing slash, and any other truthy URL has no `replace` and
   * throws; then the credentials and the options are sanitised.
   */
  function NewApi(url: Value, credentials: Value, options: Value): (r: Result<Api, Thrown>)
    ensures !Truthy(url) && r.Success? ==> r.value.url == ""
    ensures url.Str? && r.Success? ==> r.value.url == StripTrailingSlash(url.s)
    ensures r.Success? ==> r.value.credentials == SanitizeCredentials(credentials)
    ensures r.Success? <==> (!Truthy(url) || url.Str?) && SanitizeOptions(options).Success?
    ensures r.Success? ==> r.value.options == SanitizeOptions(options).value
  {
    if Truthy(url) && !url.Str? then Failure(TypeError("url.replace is not a function"))
    else
      match SanitizeOptions(options)
      case Failure(e) => Failure(e)
      case Success(o) =>
        Success(Api(if Truthy(url) then StripTrailingSlash(url.s) else "", SanitizeCredentials(credentials), o))
  }

  /** The module-level `instance` (`API.instance` in dist/yourls.js). */
  class ConnectionSlot {
    var instance: Option<Api>

    /** Nothing is stored when the library loads. */
    constructor ()
      ensures instance == None
    {
      instance := None;
    }

    /** `api.store()`: the given descriptor replaces whatever was stored. */
    method Store(api: Api)
      modifies this
      ensures instance == Some(api)
    {
      instance := Some(api);
    }

    /** `API.fetch()`: the stored descriptor, or null. */
    method Fetch() returns (r: Option<Api>)
      ensures r == instance
    {
      r := instance;
    }

    /** `API.clear()`: the slot is empty again. */
    method Clear()
      modifies this
      ensures instance == None
    {
      instance := None;
    }
  }
}
