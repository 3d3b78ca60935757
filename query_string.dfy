/**
 * The query-string serialiser `paramify` (src/request/paramify.js), which
 * `Request._serializeParameters` in src/request/request.js and
 * dist/yourls.js repeats line for line: every own property whose value is
 * neither null nor undefined becomes `encodeURIComponent(key) + '=' +
 * encodeURIComponent(value)`, in enumeration order, joined by `&`.
 */
module QueryString {
  import opened Wrappers
  import opened JsValues
  import UriComponent

  /** `parts.join(sep)`. */
  function Join(parts: seq<string>, sep: char): string {
    if parts == [] then ""
    else if |parts| == 1 then parts[0]
    else Join(parts[..|parts| - 1], sep) + [sep] + parts[|parts| - 1]
  }

  /** The index of the first `c` in `s`, or `|s|` when there is none. */
  function IndexOf(s: string, c: char): (i: nat)
    ensures i <= |s|
    ensures i < |s| ==> s[i] == c
  {
    if s == [] then 0 else if s[0] == c then 0 else 1 + IndexOf(s[1..], c)
  }

  /** `IndexOf` finds the first occurrence, and reaches the end exactly when there is none. */
  lemma {:induction false} IndexOfFirst(s: string, c: char)
    ensures forall j :: 0 <= j < IndexOf(s, c) ==> s[j] != c
    ensures IndexOf(s, c) == |s| <==> c !in s
    decreases |s|
  {
    if s != [] && s[0] != c {
      IndexOfFirst(s[1..], c);
      assert forall j :: 1 <= j < |s| ==> s[j] == s[1..][j - 1];
      assert s == [s[0]] + s[1..];
    }
  }

  /** `s.split(sep)`: the empty string splits into one empty part. */
  function Split(s: string, sep: char): (r: seq<string>)
    ensures |r| >= 1
    decreases |s|
  {
    var i := IndexOf(s, sep);
    if i == |s| then [s] else [s[..i]] + Split(s[i + 1..], sep)
  }

  /** The property names and values that end up in the query string, as text. */
  function Entries(d: Dict, keys: seq<string>): seq<(string, string)> {
    if keys == [] then []
    else
      var k := keys[|keys| - 1];
      var v := Lookup(d, k);
      Entries(d, keys[..|keys| - 1]) + (if IsNullish(v) then [] else [(k, ToStr(v))])
  }

  /** One serialised pair. */
  function Pair(e: (string, string)): string {
    UriComponent.Encode(e.0) + "=" + UriComponent.Encode(e.1)
  }

  function Pairs(entries: seq<(string, string)>): (r: seq<string>)
    ensures |r| == |entries|
  {
    if entries == [] then [] else Pairs(entries[..|entries| - 1]) + [Pair(entries[|entries| - 1])]
  }

  lemma {:induction false} PairsAt(entries: seq<(string, string)>, i: nat)
    requires i < |entries|
    ensures Pairs(entries)[i] == Pair(entries[i])
    decreases |entries|
  {
    if i < |entries| - 1 {
      PairsAt(entries[..|entries| - 1], i);
    }
  }

  lemma PairsSnoc(entries: seq<(string, string)>, more: seq<(string, string)>)
    requires |more| <= 1
    ensures Pairs(entries + more) == Pairs(entries) + Pairs(more)
  {
    if |more| == 1 {
      assert (entries + more)[..|entries|] == entries;
    } else {
      assert entries + more == entries;
    }
  }

  /** One turn of the `for-in` loop adds the pair of one property, unless its value is null or undefined. */
  lemma ParamifyStep(d: Dict, i: nat)
    requires i < |d.keys|
    ensures var v := Lookup(d, d.keys[i]);
      Pairs(Entries(d, d.keys[..i + 1])) == Pairs(Entries(d, d.keys[..i]))
        + (if IsNullish(v) then [] else [UriComponent.Encode(d.keys[i]) + "=" + UriComponent.Encode(ToStr(v))])
  {
    var key := d.keys[i];
    var value := Lookup(d, key);
    assert d.keys[..i + 1][..i] == d.keys[..i];
    var more := if IsNullish(value) then [] else [(key, ToStr(value))];
    assert Entries(d, d.keys[..i + 1]) == Entries(d, d.keys[..i]) + more;
    PairsSnoc(Entries(d, d.keys[..i]), more);
    if IsNullish(value) {
      assert Pairs(more) == [];
    } else {
      assert Pairs(more) == [Pair((key, ToStr(value)))];
    }
  }

  /** What `paramify(params)` returns. */
  function Query(params: Value): string {
    if !Truthy(params) then "" else Join(Pairs(Entries(OwnProps(params), OwnProps(params).keys)), '&')
  }

  /**
   * `paramify(params)` as the source runs it: an empty string for a falsy
   * argument, otherwise a loop over the own properties that pushes one pair
   * per property that is not null or undefined, then `results.join('&')`.
   */
  method Paramify(params: Value) returns (s: string)
    ensures s == Query(params)
    ensures !Truthy(params) ==> s == ""
  {
    if !Truthy(params) {
      return "";
    }
    var d := OwnProps(params);
    var results: seq<string> := [];
    var i := 0;
    while i < |d.keys|
      invariant 0 <= i <= |d.keys|
      invariant results == Pairs(Entries(d, d.keys[..i]))
    {
      var key := d.keys[i];
      var value := Lookup(d, key);
      ParamifyStep(d, i);
      if !IsNullish(value) {
        results := results + [UriComponent.Encode(key) + "=" + UriComponent.Encode(ToStr(value))];
      }
      i := i + 1;
    }
    assert d.keys[..i] == d.keys;
    s := Join(results, '&');
  }

  /** The entries are exactly the listed properties whose value is not null or undefined. */
  lemma {:induction false} EntriesMembership(d: Dict, keys: seq<string>, e: (string, string))
    ensures e in Entries(d, keys) <==> e.0 in keys && !IsNullish(Lookup(d, e.0)) && e.1 == ToStr(Lookup(d, e.0))
    decreases |keys|
  {
    if keys != [] {
      var init := keys[..|keys| - 1];
      EntriesMembership(d, init, e);
      assert keys == init + [keys[|keys| - 1]];
    }
  }

  /** A property whose value is null or undefined never reaches the query string. */
  lemma NullishNeverSerialised(params: Value, k: string)
    requires IsNullish(Lookup(OwnProps(params), k))
    ensures forall e :: e in Entries(OwnProps(params), OwnProps(params).keys) ==> e.0 != k
  {
    var d := OwnProps(params);
    forall e | e in Entries(d, d.keys) ensures e.0 != k {
      EntriesMembership(d, d.keys, e);
    }
  }

  /** The entries follow the enumeration order of the object. */
  lemma {:induction false} EntriesFollowOrder(d: Dict, a: seq<string>, b: seq<string>)
    ensures Entries(d, a + b) == Entries(d, a) + Entries(d, b)
    decreases |b|
  {
    if b == [] {
      assert a + b == a;
    } else {
      var init := b[..|b| - 1];
      assert (a + b)[..|a + b| - 1] == a + init;
      EntriesFollowOrder(d, a, init);
    }
  }

  lemma {:induction false} JoinFirst(parts: seq<string>, sep: char)
    requires |parts| >= 2
    ensures Join(parts, sep) == parts[0] + [sep] + Join(parts[1..], sep)
    decreases |parts|
  {
    if |parts| > 2 {
      var init := parts[..|parts| - 1];
      JoinFirst(init, sep);
      assert init[1..] == parts[1..][..|parts| - 2];
    }
  }

  /** Splitting a joined list gives the parts back when no part holds the separator. */
  lemma {:induction false} SplitJoin(parts: seq<string>, sep: char)
    requires |parts| >= 1
    requires forall i :: 0 <= i < |parts| ==> sep !in parts[i]
    ensures Split(Join(parts, sep), sep) == parts
    decreases |parts|
  {
    if |parts| == 1 {
    } else {
      JoinFirst(parts, sep);
      var rest := Join(parts[1..], sep);
      var s := parts[0] + [sep] + rest;
      assert s == parts[0] + ([sep] + rest);
      assert IndexOf(s, sep) == |parts[0]| by {
        IndexOfAfter(parts[0], sep, [sep] + rest);
      }
      assert s[..|parts[0]|] == parts[0];
      assert s[|parts[0]| + 1..] == rest;
      SplitJoin(parts[1..], sep);
      assert parts == [parts[0]] + parts[1..];
    }
  }

  lemma {:induction false} IndexOfAfter(a: string, c: char, b: string)
    requires c !in a && b != [] && b[0] == c
    ensures IndexOf(a + b, c) == |a|
    decreases |a|
  {
    if a != [] {
      assert (a + b)[1..] == a[1..] + b;
      IndexOfAfter(a[1..], c, b);
    }
  }

  /**
   * Reads a query string back: split on `&`, split each part on its first
   * `=`, percent-decode both sides. The empty string holds no pair.
   */
  function ParseQuery(s: string): Option<seq<(string, string)>> {
    if s == "" then Some([]) else ParsePairs(Split(s, '&'))
  }

  function ParsePairs(parts: seq<string>): Option<seq<(string, string)>> {
    if parts == [] then Some([])
    else
      match ParsePairs(parts[..|parts| - 1])
      case None => None
      case Some(init) =>
        match ParsePart(parts[|parts| - 1])
        case None => None
        case Some(e) => Some(init + [e])
  }

  /** One `key=value` part; a part without `=` or with a malformed escape is refused. */
  function ParsePart(p: string): Option<(string, string)> {
    var i := IndexOf(p, '=');
    if i == |p| then None
    else
      match (UriComponent.Decode(p[..i]), UriComponent.Decode(p[i + 1..]))
      case (Some(k), Some(v)) => Some((k, v))
      case _ => None
  }

  /** Where a serialised pair splits, and what its two sides decode to. */
  lemma ParsePair(e: (string, string))
    ensures '&' !in Pair(e)
    ensures IndexOf(Pair(e), '=') == |UriComponent.Encode(e.0)| < |Pair(e)|
    ensures UriComponent.Decode(Pair(e)[..|UriComponent.Encode(e.0)|]) == Some(e.0)
    ensures UriComponent.Decode(Pair(e)[|UriComponent.Encode(e.0)| + 1..]) == Some(e.1)
    ensures ParsePart(Pair(e)) == Some(e)
  {
    var ek, ev := UriComponent.Encode(e.0), UriComponent.Encode(e.1);
    UriComponent.EncodeHasNoSeparators(e.0);
    UriComponent.EncodeHasNoSeparators(e.1);
    SplitAtEquals(ek, ev);
    UriComponent.DecodeEncode(e.0);
    UriComponent.DecodeEncode(e.1);
  }

  lemma SplitAtEquals(a: string, b: string)
    requires '=' !in a && '&' !in a && '&' !in b
    ensures '&' !in a + "=" + b
    ensures IndexOf(a + "=" + b, '=') == |a|
    ensures (a + "=" + b)[..|a|] == a && (a + "=" + b)[|a| + 1..] == b
  {
    assert a + "=" + b == a + ("=" + b);
    IndexOfAfter(a, '=', "=" + b);
  }

  lemma ParsePairsSnoc(parts: seq<string>, p: string)
    ensures ParsePairs(parts + [p]) ==
      if ParsePairs(parts).Some? && ParsePart(p).Some? then Some(ParsePairs(parts).value + [ParsePart(p).value]) else None
  {
    assert (parts + [p])[..|parts|] == parts;
  }

  lemma ParsePartOfPair(e: (string, string))
    ensures ParsePart(Pair(e)) == Some(e)
  {
    ParsePair(e);
  }

  /** Parts that each parse to the corresponding entry parse, together, to all the entries. */
  lemma {:induction false} ParsePairsOf(parts: seq<string>, entries: seq<(string, string)>)
    requires |parts| == |entries|
    requires forall i :: 0 <= i < |parts| ==> ParsePart(parts[i]) == Some(entries[i])
    ensures ParsePairs(parts) == Some(entries)
    decreases |parts|
  {
    if parts != [] {
      var n := |parts| - 1;
      var ps, es := parts[..n], entries[..n];
      forall i | 0 <= i < n ensures ParsePart(ps[i]) == Some(es[i]) {
        assert ps[i] == parts[i] && es[i] == entries[i];
      }
      ParsePairsOf(ps, es);
      assert ParsePart(parts[n]) == Some(entries[n]);
      assert es + [entries[n]] == entries;
    }
  }

  lemma ParsePairsOfPairs(entries: seq<(string, string)>)
    ensures ParsePairs(Pairs(entries)) == Some(entries)
  {
    var parts := Pairs(entries);
    forall i | 0 <= i < |parts| ensures ParsePart(parts[i]) == Some(entries[i]) {
      PairsAt(entries, i);
      ParsePartOfPair(entries[i]);
    }
    ParsePairsOf(parts, entries);
  }

  /**
   * The partner of `Paramify`: reading its output back yields exactly the
   * properties whose value is not null or undefined, in enumeration order,
   * with their values as `String(value)`; so nothing is lost to the
   * encoding and the `&` and `=` separators are unambiguous.
   */
  lemma QueryRoundTrip(params: Value)
    ensures ParseQuery(Query(params)) == Some(if Truthy(params) then Entries(OwnProps(params), OwnProps(params).keys) else [])
  {
    if Truthy(params) {
      ParseJoinedPairs(Entries(OwnProps(params), OwnProps(params).keys));
    }
  }

  lemma ParseJoinedPairs(entries: seq<(string, string)>)
    ensures ParseQuery(Join(Pairs(entries), '&')) == Some(entries)
  {
    var parts := Pairs(entries);
    ParsePairsOfPairs(entries);
    if parts != [] {
      forall i | 0 <= i < |parts| ensures '&' !in parts[i] {
        PairsAt(entries, i);
        ParsePair(entries[i]);
      }
      SplitJoin(parts, '&');
      PairsAt(entries, 0);
      assert parts[0] != "" by { ParsePair(entries[0]); }
      JoinNonEmpty(parts, '&');
    }
  }

  lemma {:induction false} JoinNonEmpty(parts: seq<string>, sep: char)
    requires parts != [] && parts[0] != ""
    ensures Join(parts, sep) != ""
    decreases |parts|
  {
    if |parts| >= 2 {
      JoinFirst(parts, sep);
    }
  }

  /** Both parses, one after the other; none if either fails. */
  function AppendParsed(x: Option<seq<(string, string)>>, y: Option<seq<(string, string)>>): Option<seq<(string, string)>> {
    if x.Some? && y.Some? then Some(x.value + y.value) else None
  }

  lemma {:induction false} SplitConcat(a: string, b: string, sep: char)
    ensures Split(a + [sep] + b, sep) == Split(a, sep) + Split(b, sep)
    decreases |a|
  {
    var s := a + [sep] + b;
    assert s == a + ([sep] + b);
    if sep !in a {
      IndexOfAfter(a, sep, [sep] + b);
      SplitFirst(s, sep, |a|);
      assert s[..|a|] == a;
      assert s[|a| + 1..] == b;
      SplitWhole(a, sep);
    } else {
      var i := IndexOf(a, sep);
      IndexOfFirst(a, sep);
      IndexOfPrefix(a, [sep] + b, sep);
      SplitFirst(s, sep, i);
      SplitFirst(a, sep, i);
      assert s[..i] == a[..i];
      assert s[i + 1..] == a[i + 1..] + [sep] + b;
      SplitConcat(a[i + 1..], b, sep);
    }
  }

  /** A text holding the separator splits at its first occurrence. */
  lemma SplitFirst(s: string, sep: char, i: nat)
    requires i < |s| && IndexOf(s, sep) == i
    ensures Split(s, sep) == [s[..i]] + Split(s[i + 1..], sep)
  {
  }

  /** A text without the separator is one part. */
  lemma SplitWhole(s: string, sep: char)
    requires sep !in s
    ensures Split(s, sep) == [s]
  {
    IndexOfFirst(s, sep);
  }

  lemma {:induction false} IndexOfPrefix(a: string, b: string, c: char)
    requires c in a
    ensures IndexOf(a + b, c) == IndexOf(a, c)
    decreases |a|
  {
    if a[0] != c {
      assert (a + b)[1..] == a[1..] + b;
      IndexOfPrefix(a[1..], b, c);
    }
  }

  lemma {:induction false} ParsePairsConcat(p1: seq<string>, p2: seq<string>)
    ensures ParsePairs(p1 + p2) == AppendParsed(ParsePairs(p1), ParsePairs(p2))
    decreases |p2|
  {
    if p2 == [] {
      assert p1 + p2 == p1;
      var a := ParsePairs(p1);
      if a.Some? {
        assert a.value + [] == a.value;
      }
    } else {
      var init := p2[..|p2| - 1];
      var last := p2[|p2| - 1];
      assert p2 == init + [last];
      assert p1 + p2 == (p1 + init) + [last];
      ParsePairsConcat(p1, init);
      ParsePairsSnoc(init, last);
      ParsePairsSnoc(p1 + init, last);
      var a, b, l := ParsePairs(p1), ParsePairs(init), ParsePart(last);
      if a.Some? && b.Some? && l.Some? {
        assert a.value + (b.value + [l.value]) == (a.value + b.value) + [l.value];
      }
    }
  }

  /** Two non-empty query strings joined by `&` read back as the pairs of the first, then those of the second. */
  lemma ParseQueryConcat(q1: string, q2: string)
    requires q1 != "" && q2 != ""
    ensures ParseQuery(q1 + "&" + q2) == AppendParsed(ParseQuery(q1), ParseQuery(q2))
  {
    SplitConcat(q1, q2, '&');
    ParsePairsConcat(Split(q1, '&'), Split(q2, '&'));
  }
}
