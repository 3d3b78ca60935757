# yourls-api, request building and dispatch

A Dafny model of the client library for the YOURLS URL-shortener API
(neocotic/yourls-api). It covers the part of the library that builds and
dispatches requests; the network call itself is outside the model.

- **Parameter serialisation.** `paramify` / `Request._serializeParameters` turn
  an object into `k=v&k=v`. They drop null and undefined values and
  percent-encode both sides with `encodeURIComponent` (ECMA-262 5.1, section
  15.1.3.4). A percent-decoder is defined beside the encoder, so that
  serialisation can be proved lossless.
- **Object merge.** `extend` is an in-place, last-writer-wins merge.
  `buildBody` uses it to layer `format`, then the credentials, then the call
  data.
- **Connection descriptor.** `API` strips one trailing slash from the URL and
  sanitises the credentials and the options. The single stored instance
  supports `store`, `fetch` and `clear`.
- **Dispatcher.** `Requestor.sendRequest` checks, in order, that there is a
  connection, that the format is known and that the method is supported.
  `Request.send` then builds the URL and the body, and `_extractResult`
  projects the response onto the requested names.
- **JSONP registries.** There are three: the `JSONPRequest` class of the
  bundle (a `seed` counter and a callback holder), the older functional
  `jsonp` of `src/request/jsonp.js`, and the callback map of the legacy
  single-file client `yourls.js`.
- **Facade.** `connect`, `disconnect`, `shorten`, `stats`, `version`, `url`,
  `url.expand`, `url.stats` and `db.stats` shape their arguments into a
  payload. `sanitizeStatsResult` rewrites `links.link_1 … link_n` into an
  array.

JavaScript values are the datatype `JsValues.Value`. An object is an ordered
`Dict`: its keys in insertion order plus a map. Code that changes an object
in place works on `JsObject`, a class with one `props` field. The connection
slot, the JSONP registries and the legacy client are classes whose methods
carry `modifies` clauses. Loops in the source are `while` loops with
invariants here. Each such loop is proved against a function, and the
properties are lemmas about that function.

The model follows the bundle `dist/yourls.js`, which is the one consistent
configuration: `API` with options, and the `JSONPRequest` class. The `src/`
files are mixed versions. Where a `src/` file reads `API.instance` or
`api.options`, which `src/api.js` lacks, the bundle's meaning is used. The
functional `jsonp` of `src/request/jsonp.js` and the legacy `yourls.js` are
modelled as separate variants (`JsonpFunction` and `Legacy`).

Modules: `Wrappers` and `JsValues` (js_values.dfy), `UriComponent`,
`QueryString`, `ObjectMerge`, `Connection`, `Request`, `StatsResult`,
`Callbacks`, `JsonTransport`, `JsonpRequest`, `JsonpFunction`, `Requestor`,
`Facade`, `Legacy`.

In the bundle, `new Request()` runs before the method check
(dist/yourls.js:892-896), and the `JSONPRequest` constructor advances the
shared `seed` (dist/yourls.js:750, 821-827). So a JSONP request rejected for
its method still uses up an id. `Requestor.SendRequest` states this: the seed
grows for every JSONP-format call that gets past the format check.
`Requestor.SendRequest` also looks the format up as `_requestFormatMap[format]`
does, inherited names included (see Findings).

`QueryString.IndexOf`, `QueryString.IndexOfFirst` and `QueryString.Split` have
no counterpart in the library, which never reads a query string back. They
are the reader that the round-trip lemmas use to show that serialisation loses
nothing.

## Model

| member | source | states |
|---|---|---|
| UriComponent.Encode | dist/yourls.js:617 | `encodeURIComponent` over scalar values: never shorter than its input |
| UriComponent.EncodeAlphabet | dist/yourls.js:617 | every character of an encoding is unreserved or `%` |
| UriComponent.EncodeHasNoSeparators | src/request/paramify.js:40 | an encoded key or value never contains `&`, `=` or `?`, so it cannot break the pair or query syntax |
| UriComponent.EncodeAppend | src/request/paramify.js:40 | encoding distributes over concatenation |
| UriComponent.EncodeUnreservedIdentity | src/request/paramify.js:40 | text made only of unreserved characters is left as it is |
| UriComponent.Utf8 | dist/yourls.js:617 | the UTF-8 encoding of a scalar value is 1 to 4 bytes |
| UriComponent.Utf8RoundTrip | dist/yourls.js:617 | the UTF-8 bytes have the right leading byte and continuation bytes, and they spell the code point back |
| UriComponent.EscapesAtOfEscapes | dist/yourls.js:617 | the `%XX` escapes of a byte sequence read back as those bytes, whatever follows them |
| UriComponent.DecodeOneOfEncodeChar | dist/yourls.js:617 | the encoding of one character decodes back to that character, followed by its length |
| UriComponent.DecodeEncode | src/request/paramify.js:40 | decoding an encoding gives the original text back |
| UriComponent.EncodeInjective | src/request/paramify.js:40 | distinct texts have distinct encodings |
| QueryString.Paramify | src/request/paramify.js:30-46 | the loop returns the query function's value; a falsy argument gives `''` |
| QueryString.EntriesMembership | src/request/paramify.js:37-42 | a pair is serialised exactly when it is an own property whose value is neither null nor undefined, with its value as text (both directions) |
| QueryString.NullishNeverSerialised | src/request/paramify.js:39 | a property holding null or undefined never reaches the query string |
| QueryString.EntriesFollowOrder | src/request/paramify.js:37-43 | the pairs follow the enumeration order of the keys |
| QueryString.SplitJoin | src/request/paramify.js:45 | splitting a `&`-joined list whose parts hold no `&` gives the parts back |
| QueryString.ParsePair | src/request/paramify.js:40 | a serialised pair holds no `&`, its first `=` is right after the encoded key, and both sides decode back |
| QueryString.QueryRoundTrip | src/request/paramify.js:30-46 | reading a query string back gives exactly the serialised pairs, in order; the empty string for a falsy argument |
| QueryString.ParseJoinedPairs | src/request/paramify.js:45 | a `&`-joined list of serialised pairs parses back to those pairs |
| QueryString.JoinNonEmpty | src/request/paramify.js:45 | joining parts whose first part is non-empty gives a non-empty string |
| QueryString.SplitConcat | src/request/paramify.js:45 | splitting `a + '&' + b` is splitting `a`, then `b` |
| QueryString.ParsePairsConcat | src/request/paramify.js:45 | parsing two lists of parts one after the other is parsing the whole list |
| QueryString.ParseQueryConcat | src/request/jsonp.js:137-143 | two non-empty query strings joined by `&` parse as the first's pairs followed by the second's |
| ObjectMerge.Extend | src/util/extend.js:33-49 | the nested loops leave the target holding the merge of all sources, and the target itself is returned |
| ObjectMerge.ExtendLookup | src/util/extend.js:36-45 | every key reads as its last writer: the value from the last truthy source that owns it, otherwise the target's own value |
| ObjectMerge.AssignLookup | src/util/extend.js:40-43 | copying one source sets exactly its keys and leaves every other key as it was |
| ObjectMerge.AssignWf | src/util/extend.js:40-43 | copying one source keeps the target well formed and adds exactly the source's keys |
| ObjectMerge.ExtendKeys | src/util/extend.js:36-46 | the target stays well formed, keeps its own keys first and in order, and gains exactly the keys of the truthy sources |
| ObjectMerge.ExtendConcat | src/util/extend.js:36-46 | merging two batches of sources one after the other is merging them all at once |
| ObjectMerge.FalsySourceIgnored | src/util/extend.js:39 | a falsy source anywhere in the list changes nothing |
| Connection.CredentialsObject | src/api.js:48-57 | the sanitised object has exactly `signature`/`timestamp` or exactly `password`/`username`, in that order, with the given values |
| Connection.SanitizeCredentials | src/api.js:43-58 | falsy credentials give null; a truthy signature gives signature and timestamp; otherwise, password and username |
| Connection.SignatureTakesPrecedence | src/api.js:49-54 | with a truthy signature, no password or username is kept even when supplied; without one, no signature or timestamp is kept; an empty object still sanitises to an object |
| Connection.SanitizeOptions | dist/yourls.js:330-344 | falsy options give the defaults `jsonp` and `GET`; a truthy non-string format or method throws a TypeError (iff); the results are never empty |
| Connection.SanitizedOptionsCase | dist/yourls.js:336-343 | the format is the lower-cased option or `jsonp`, the method is the upper-cased option or `GET`, and no other option is kept |
| Connection.StripTrailingSlashExact | src/api.js:76 | either nothing was removed and the URL does not end in `/`, or putting back one `/` gives the URL |
| Connection.NewApi | dist/yourls.js:240-264 | a falsy URL becomes `''`; a string loses one trailing slash; credentials and options are the sanitised ones; it succeeds iff the URL is falsy or a string and the options sanitise |
| Connection.ConnectionSlot.constructor | src/api.js:29 | nothing is stored at load |
| Connection.ConnectionSlot.Store | src/api.js:118-120 | the descriptor replaces whatever was stored |
| Connection.ConnectionSlot.Fetch | src/api.js:108-110 | returns the stored descriptor, or null |
| Connection.ConnectionSlot.Clear | src/api.js:95-97 | the slot is empty afterwards |
| Request.SupportedMethodsExact | src/request/request.js:62-76 | the base type supports no method; JSON (src/request/json.js) exactly GET and POST; JSONP exactly GET; names are case-sensitive, so `PUT` and `get` are refused |
| Request.FormatObject | src/request/request.js:50 | `{ format }` is a well-formed object with the one key `format` |
| Request.BodyLayers | src/request/request.js:49-51 | each body property comes from the data if the data has it, else from the credentials, else it is the format: the data wins every collision |
| Request.BodyShape | src/request/request.js:49-51 | the body is well formed and its first key is `format` |
| Request.Send | src/request/request.js:128-137 | the method is the connection's; for GET the URL is `api.url + '?' + body` and the body is null; otherwise the URL is unchanged and the body is the serialised string |
| Request.ExtractResult | src/request/request.js:162-188 | the loop computes the projection; a falsy response gives null |
| Request.GatherFields | src/request/request.js:175-185 | the multi-name result holds a key iff it is one of the names and the response defines it, with the response's value |
| Request.ProjectRules | src/request/request.js:162-188 | falsy response gives null; one name (string or one-element array) gives the bare field; several names give an object of exactly the defined named fields; missing ones are omitted, not set to null |
| StatsResult.LinkKeyInjective | src/yourls.js:51 | distinct indices give distinct `link_` keys |
| StatsResult.SanitizeStatsResult | src/yourls.js:41-59 | the same object is returned; its properties become the sanitised result; null is handed back as it is |
| StatsResult.CollectRules | src/yourls.js:47-54 | the array holds `link_1, link_2, …` in index order, none null or undefined, and the next index is missing |
| StatsResult.UnchangedCases | src/yourls.js:43-45 | a falsy result, a falsy `links` and an array `links` are returned unchanged |
| StatsResult.OtherFieldsUntouched | src/yourls.js:56-58 | `links` becomes the collected array in its old place; every other property is untouched |
| StatsResult.SanitizeStatsIdempotent | src/yourls.js:43 | sanitising twice is sanitising once |
| Callbacks.CompleteForwards | src/request/request.js:139-141 | the callback receives the projection first and the raw response second; for `stats` the projection is sanitised, and it is already a fixed point of the sanitiser |
| JsonTransport.HeadersDecision | src/request/json.js:64-67 | `X-Requested-With` is always set and first; the form content type is set iff there is a body, an empty body included |
| JsonTransport.ReadyStateAsWritten | src/request/json.js:51-62 | the handler does nothing before ready state 4, and acts at 4 |
| JsonTransport.CallbackErrorReportedAsParseError | src/request/json.js:55-60 | an error thrown by the callback on a parsed response leaves as "Unable to parse response" |
| JsonTransport.ReadyState | src/request/json.js:51-62 | the handler does nothing before ready state 4, and acts at 4 |
| JsonTransport.ReadyStateAgrees | src/request/json.js:55-60 | the handler as written and the corrected one agree exactly unless a parsed response meets a throwing callback; in particular, whenever the callback does not throw |
| JsonTransport.ReadyStateRules | src/request/json.js:54-60 | the callback runs iff the state is 4 and the parse succeeded, with the parsed value; the parse error is raised iff the parse failed |
| JsonpRequest.BodyCallbackOverrides | dist/yourls.js:765-770 | `callback` is always this request's handler name, even when the data has its own; every other property is the base body's |
| JsonpRequest.CallbackNameInjective | dist/yourls.js:767 | different ids give different handler names |
| JsonpRequest.Registry.constructor | dist/yourls.js:725-813 | the seed is the load time, the key is stamped with it, nothing is pending |
| JsonpRequest.Registry.GenerateId | dist/yourls.js:821-827 | the new id is the least one above the old seed that no handler holds, so ids strictly increase; the seed becomes the id; with every pending id at most the seed, it is the seed plus one |
| JsonpRequest.Registry.Register | dist/yourls.js:780 | the handler is stored under its id and nothing else changes |
| JsonpRequest.Registry.Invoke | dist/yourls.js:780-785 | a handler deletes its own entry and only that one, then forwards the completed call; an unknown id throws a TypeError and changes nothing |
| JsonpFunction.FirstParamsRoundTrip | src/request/jsonp.js:137 | the first parameters read back as `callback` (the handler name) and then `format=jsonp` |
| JsonpFunction.AssembleParse | src/request/jsonp.js:137-143 | the assembled target parses as the first part's pairs, then the credentials', then the data's |
| JsonpFunction.TargetQueryRoundTrip | src/request/jsonp.js:137-143 | the target's query string reads back as callback and format, then the credentials, then the data, each only if present |
| JsonpFunction.Holder.constructor | src/request/jsonp.js:33-44 | the key is stamped with the load time and nothing is pending |
| JsonpFunction.Holder.GenerateCallbackId | src/request/jsonp.js:52-59 | the id is the least free one from the clock reading on: at least the clock reading and not pending |
| JsonpFunction.Holder.JsonpAsWritten | src/request/jsonp.js:123-143 | the id is fresh and registered; without a connection the call throws a TypeError with the handler left registered; otherwise the target is the assembled URL |
| JsonpFunction.Holder.Jsonp | src/request/jsonp.js:123-143 | without a connection nothing is registered and the library's own error is returned; otherwise a fresh id is registered, every other entry is unchanged, and the target is assembled |
| JsonpFunction.Holder.BuildTarget | src/request/jsonp.js:137-143 | the `+=` steps give `api.url + '?' +` the first parameters, then `&` and the credentials if any, then `&` and the data if truthy |
| JsonpFunction.Holder.Invoke | src/request/jsonp.js:128-135 | a handler deletes its own entry and only that one and forwards the projection and the response; an unknown id throws a TypeError |
| Requestor.InheritedFormatSlipsThrough | src/request/requestor.js:62-68 | the format `constructor` passes option sanitising and then throws a TypeError instead of "Request format not supported" |
| Requestor.PreflightOrder | src/request/requestor.js:53-75 | the checks run in order (connection, format, method), each with its own message; all pass iff connected with `json`/`jsonp` and a supported method |
| Requestor.DefaultsPass | dist/yourls.js:273-276 | a fresh connection with default options passes every check and chooses JSONP |
| Requestor.PreflightAgrees | src/request/requestor.js:62-89 | the checks as written agree with the corrected ones on every format that is not an inherited property name |
| Requestor.SendRequest | dist/yourls.js:877-899 | fails iff a check as written fails, with that error, so an inherited format name throws its TypeError before anything is registered; a JSON request is sent with the XHR envelope and headers and registers nothing; a JSONP request takes a fresh id and registers its handler; the seed advances for every JSONP-format call past the format check |
| Facade.Connect | dist/yourls.js:1109-1113 | the slot holds the new descriptor; if building it throws, the slot is unchanged |
| Facade.Disconnect | dist/yourls.js:1122-1126 | the slot is empty |
| Facade.ShortenData | dist/yourls.js:1143-1146 | the data is `{ action: 'shorturl', url }` |
| Facade.DescriptorData | dist/yourls.js:1160-1163 | after copying, the data holds action, url, keyword and title in that order |
| Facade.ShortenShaping | dist/yourls.js:1142-1165 | the action and the URL always lead the data, with the fixed result names; a function descriptor replaces the callback |
| Facade.ShortenPlain | src/yourls.js:140-155 | a function descriptor, or a falsy non-string one, adds no keyword and no title |
| Facade.ShortenKeyword | src/yourls.js:145-155 | a string descriptor, even an empty one, becomes the keyword with an undefined title; an object descriptor has its keyword and title copied |
| Facade.CriteriaData | dist/yourls.js:1201-1205 | the data holds action, filter, limit and start, copied from the criteria |
| Facade.StatsShaping | src/yourls.js:181-201 | a function is the callback and adds no criteria; a number, NaN included, is the limit alone; an object has filter, limit and start copied; the callback is always wrapped in the sanitiser |
| Facade.StatsLimitOnly | dist/yourls.js:1194-1207 | a number as criteria reaches the server as `action=stats` and the limit only |
| Facade.VersionShaping | dist/yourls.js:1241-1253 | a function is the callback; a non-null `db` adds `db = Number(db)`, so `true` gives 1 and `false` gives 0; the names are `db_version`, `version` |
| Facade.VersionOnly | src/yourls.js:229-235 | the data is the action alone and the single name is `version` |
| Facade.Url | src/yourls.js:218-220 | null iff the argument is falsy; otherwise a handle on it |
| Facade.Expand | src/yourls-url.js:49-58 | `{ action: 'expand', shorturl }` with names keyword, longurl, shorturl |
| Facade.UrlStats | src/yourls-url.js:67-75 | `{ action: 'url-stats', shorturl }` with the single name `link` |
| Facade.DbStats | src/yourls-db.js:41-47 | `{ action: 'db-stats' }` with the single name `db-stats` |
| JsValues.ToNumber | dist/yourls.js:1250 | `Number(v)` is always a number or NaN |
| JsValues.NumberOfString | dist/yourls.js:1250 | `Number` reads back what `String` writes for every integer |
| JsValues.NumberOfDigits | dist/yourls.js:1250 | a string of decimal digits, leading zeros included, reads as its decimal value |
| JsValues.NumberIgnoresSpace | dist/yourls.js:1250 | white space and line terminators before or after a string do not change what `Number` reads |
| JsValues.NumberPlus | dist/yourls.js:1250 | a `+` before decimal digits changes nothing |
| JsValues.NumberExponent | dist/yourls.js:1250 | `<digits>e<digits>` reads as the mantissa times ten to the exponent |
| JsValues.NumberRadix | dist/yourls.js:1250 | `0x`, `0o` and `0b`, in either case, read the digits after them in base 16, 8 and 2 |
| JsValues.SignedRadixIsNaN | dist/yourls.js:1250 | a sign before a radix prefix gives NaN, as in `Number('-0x10')` |
| JsValues.ToLower | dist/yourls.js:337 | lower-casing keeps the length |
| JsValues.ToUpper | dist/yourls.js:340 | upper-casing keeps the length |
| Legacy.StripTrailingAmp | yourls.js:15 | one trailing `&` is removed, only if there is one |
| Legacy.StripAccumulated | yourls.js:7-15 | appending `&` after every pair and stripping the last one is joining the pairs by `&` |
| Legacy.LegacyParamify | yourls.js:6-16 | the loop returns the legacy query: the raw pairs of the own properties that are not undefined, joined by `&` |
| Legacy.LegacyPairsMembership | yourls.js:10-11 | a pair is emitted iff it is `key=value` of a property whose value is not undefined, with no encoding (both directions) |
| Legacy.NullIsSent | yourls.js:10-11 | a null value is sent, as `key=null` |
| Legacy.LegacyQueryEmpty | yourls.js:7-15 | no properties, or a falsy argument, give `''` |
| Legacy.LegacyAuth | yourls.js:34-42 | falsy credentials store nothing; a truthy signature stores only `{signature}`; otherwise `{password, username}` |
| Legacy.SignatureDropsTimestamp | yourls.js:35-36 | with a signature, the timestamp and the password are not kept |
| Legacy.ScriptSourceParts | yourls.js:27-29 | the script address is the API URL, the fixed parameters, the encoded callback reference, the query and the credentials, in that order; the encoded reference holds no `&` and decodes to the map entry's name |
| Legacy.ShortenShaping | yourls.js:46-56 | a function keyword becomes the callback and adds no keyword; any other, null included, is copied as the keyword |
| Legacy.StatsShaping | yourls.js:59-78 | a number is the limit and the next argument the callback; a function is the callback; otherwise filter, then limit or callback |
| Legacy.UrlCall | yourls.js:87-100 | `url.expand` and `url.stats` send their action and the held URL |
| Legacy.LegacyClient.constructor | yourls.js:2-5 | the default endpoint `/yourls-api.php`, no credentials and no callbacks |
| Legacy.LegacyClient.Connect | yourls.js:32-45 | the endpoint is always replaced; the credentials only when some are given |
| Legacy.LegacyClient.Jsonp | yourls.js:17-31 | the id is at least the clock reading and fresh; the handler is stored; the script address is assembled |
| Legacy.LegacyClient.FreeId | yourls.js:18-22 | the first id from the clock reading on that the map does not hold |
| Legacy.LegacyClient.Send | yourls.js:56-78 | every legacy call ends in `jsonp(paramify(data), callback)` |
| Legacy.LegacyClient.Invoke | yourls.js:23-26 | a handler deletes its own entry, and only that one, and then applies the callback to the arguments |

## Left out

- The DOM: script creation, insertion and removal, `window[...]` globals. Only the registries are modelled.
- `XMLHttpRequest` and `JSON.parse` are left out because they are I/O. The parse result and whether the callback throws are inputs to `JsonTransport.ReadyState`.
- The clock (`Date.now()`, `new Date().getTime()`) is a parameter, `now` or `loadTime`.
- Asynchronous completion order is not a sequential property.
- The Oopsy inheritance machinery is left out. The three request types are the datatype `Request.Kind`.
- `Legacy.LegacyClient.FreeId`: the source moves a clashing id on by `Math.random()`, giving fractional ids. The model steps by whole numbers, so it does not capture floating-point ids or their text in the callback reference.
- Property enumeration follows insertion order only. JavaScript's rule that integer-like keys come first is not modelled.
- Numbers are integers plus NaN. Fractions and infinities are left out, so `String` and `Number` are modelled for those values only.
- Numbers are exact integers of any size. JavaScript numbers are doubles: above 2^53 they lose precision, and `String(n)` writes exponent notation (`1e+21`) once |n| is at least 10^21. The model does not capture either, so it does not capture the `limit`, `start` or `db` text the facade sends for such values.
- `JsValues.StrToNumber`: it reads every StringNumericLiteral whose value is an integer, as the library's `Number(db)` does. A literal whose value is a fraction (`'1.5'`) or infinite (`'Infinity'`) gives NaN in the model, because the model has no such numbers.
- `ObjectMerge.Extend`: the sources are read as values. In JavaScript, a target also passed as a later source (`extend(t, s, t)`) is read live, after the earlier sources were merged into it. The model re-applies the target's old properties instead. No call in the library passes the same object twice: `buildBody` passes a fresh `{ format }` as the target (src/request/request.js:50).
- `JsValues.ToLower`, `JsValues.ToUpper`: only ASCII letters change case, because Unicode case mapping is left out.
- Lone surrogates: Dafny characters are scalar values, so the `URIError` that `encodeURIComponent` throws for a lone surrogate cannot arise.
- Reading a property of a primitive gives undefined, as JavaScript does for the properties the library reads. Getters, and prototype properties other than those the format map can find, are left out.
- Each sanitising function builds a new object and leaves its input alone. With values instead of references this holds by construction, so no separate statement is made. Likewise `defaultOptions` is a constant and cannot be changed.
- `JsonpFunction.TargetQueryRoundTrip`: it requires that credentials and data, when present, serialise to something. A part with no serialisable property leaves a dangling `&`, which the parser refuses.
- The legacy `yourls.url` called without `new`, and the `VERSION` constants, are left out. They contain no logic.
- Gruntfile.js is build tooling and is not part of this model.

## Findings

| source | as written | input that shows it | evidently intended | confidence | as-written member | corrected member |
|---|---|---|---|---|---|---|
| src/request/requestor.js:62-68 | `_requestFormatMap[format]` also finds properties inherited from Object.prototype | `connect(url, null, { format: 'constructor' })`, then any call: throws the TypeError "request.isMethodSupported is not a function" | "Request format not supported: constructor" | not executed | Requestor.PreflightAsWritten, Requestor.InheritedFormatSlipsThrough, Requestor.SendRequest | Requestor.Preflight, Requestor.PreflightOrder |
| src/request/json.js:55-60 | the `try` holds both `JSON.parse` and `callback(response)` | a response that parses, and a callback that throws `new Error('boom')`: reported as "Unable to parse response: Error: boom" | only parse errors are wrapped; the callback's error propagates | not executed | JsonTransport.ReadyStateAsWritten, JsonTransport.CallbackErrorReportedAsParseError | JsonTransport.ReadyState, JsonTransport.ReadyStateRules |
| src/request/jsonp.js:123-137 | the handler is registered before `api.url` is read | `jsonp(...)` with no stored connection: a TypeError, and a handler left registered for a script never inserted | check the connection first, register nothing | not executed | JsonpFunction.Holder.JsonpAsWritten | JsonpFunction.Holder.Jsonp |
