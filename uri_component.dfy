/**
 * `encodeURIComponent` (ECMA-262 5.1, section 15.1.3.4) over Unicode scalar
 * values: a character of the unreserved set stands for itself, every other
 * character becomes the `%XX` escapes of its UTF-8 bytes, upper-case hex.
 * A percent-decoder is defined beside it, only to state that the encoding
 * loses nothing.
 */
module UriComponent {
  import opened Wrappers

  type Byte = b: int | 0 <= b < 256

  /** The characters `encodeURIComponent` leaves alone: letters, digits and `-_.!~*'()`. */
  predicate Unreserved(c: char) {
    ('A' <= c <= 'Z') || ('a' <= c <= 'z') || ('0' <= c <= '9') ||
    c == '-' || c == '_' || c == '.' || c == '!' || c == '~' || c == '*' || c == '\'' || c == '(' || c == ')'
  }

  /** The UTF-8 encoding of one scalar value. */
  function Utf8(c: char): (r: seq<Byte>)
    ensures 1 <= |r| <= 4
  {
    var cp := c as int;
    if cp < 0x80 then [cp]
    else if cp < 0x800 then [0xC0 + cp / 64, 0x80 + cp % 64]
    else if cp < 0x10000 then [0xE0 + cp / 4096, 0x80 + (cp / 64) % 64, 0x80 + cp % 64]
    else [0xF0 + cp / 262144, 0x80 + (cp / 4096) % 64, 0x80 + (cp / 64) % 64, 0x80 + cp % 64]
  }

  /** The upper-case hex digit `0`-`9`, `A`-`F` of `n`. */
  function HexDigit(n: nat): char
    requires n < 16
  {
    if n < 10 then ('0' as int + n) as char else ('A' as int + (n - 10)) as char
  }

  /** The `k`-th character (0, 1 or 2) of the escape `%XX` of one byte. */
  function EscapeChar(b: Byte, k: nat): char
    requires k < 3
  {
    if k == 0 then '%' else if k == 1 then HexDigit(b / 16) else HexDigit(b % 16)
  }

  /** `%XX` for every byte, in order. */
  function Escapes(bs: seq<Byte>): (r: string)
    ensures |r| == 3 * |bs|
  {
    seq(3 * |bs|, i requires 0 <= i < 3 * |bs| => EscapeChar(bs[i / 3], i % 3))
  }

  lemma EscapesAt3(bs: seq<Byte>, j: nat)
    requires j < |bs|
    ensures Escapes(bs)[3 * j] == '%'
    ensures Escapes(bs)[3 * j + 1] == HexDigit(bs[j] / 16)
    ensures Escapes(bs)[3 * j + 2] == HexDigit(bs[j] % 16)
  {
    assert (3 * j) / 3 == j && (3 * j) % 3 == 0;
    assert (3 * j + 1) / 3 == j && (3 * j + 1) % 3 == 1;
    assert (3 * j + 2) / 3 == j && (3 * j + 2) % 3 == 2;
  }

  function EncodeChar(c: char): (r: string)
    ensures |r| >= 1
  {
    if Unreserved(c) then [c] else Escapes(Utf8(c))
  }

  /** `encodeURIComponent(s)`. */
  function Encode(s: string): (r: string)
    ensures |r| >= |s|
  {
    if s == [] then "" else EncodeChar(s[0]) + Encode(s[1..])
  }

  /** What an encoding may contain: unreserved characters (hex digits among them) and `%`. */
  predicate Encoded(r: string) {
    forall i :: 0 <= i < |r| ==> Unreserved(r[i]) || r[i] == '%'
  }

  lemma EscapeCharAlphabet(b: Byte, k: nat)
    requires k < 3
    ensures Unreserved(EscapeChar(b, k)) || EscapeChar(b, k) == '%'
  {
  }

  lemma EncodeCharAlphabet(c: char)
    ensures Encoded(EncodeChar(c))
  {
    if !Unreserved(c) {
      var bs := Utf8(c);
      var r := Escapes(bs);
      assert EncodeChar(c) == r;
      forall i | 0 <= i < |r| ensures Unreserved(r[i]) || r[i] == '%' {
        var j, k := i / 3, i % 3;
        assert r[i] == EscapeChar(bs[j], k);
        EscapeCharAlphabet(bs[j], k);
      }
    }
  }

  lemma {:induction false} EncodeAlphabet(s: string)
    ensures Encoded(Encode(s))
    decreases |s|
  {
    if s != [] {
      EncodeCharAlphabet(s[0]);
      EncodeAlphabet(s[1..]);
      EncodedConcat(EncodeChar(s[0]), Encode(s[1..]));
    }
  }

  lemma EncodedConcat(a: string, b: string)
    requires Encoded(a) && Encoded(b)
    ensures Encoded(a + b)
  {
    forall i | 0 <= i < |a + b| ensures Unreserved((a + b)[i]) || (a + b)[i] == '%' {
      if i >= |a| {
        assert (a + b)[i] == b[i - |a|];
      }
    }
  }

  /** No encoded text contains the separators of a query string. */
  lemma EncodeHasNoSeparators(s: string)
    ensures '&' !in Encode(s) && '=' !in Encode(s) && '?' !in Encode(s)
  {
    EncodeAlphabet(s);
  }

  lemma {:induction false} EncodeAppend(s: string, t: string)
    ensures Encode(s + t) == Encode(s) + Encode(t)
    decreases |s|
  {
    if s == [] {
      assert s + t == t;
    } else {
      assert (s + t)[1..] == s[1..] + t;
      EncodeAppend(s[1..], t);
    }
  }

  /** Text made of unreserved characters only (names such as `format`, `action`) is left as it is. */
  lemma {:induction false} EncodeUnreservedIdentity(s: string)
    requires forall i :: 0 <= i < |s| ==> Unreserved(s[i])
    ensures Encode(s) == s
    decreases |s|
  {
    if s != [] {
      EncodeUnreservedIdentity(s[1..]);
    }
  }

  // ---- the decoder ----

  function HexVal(c: char): Option<nat> {
    if '0' <= c <= '9' then Some(c as int - '0' as int)
    else if 'A' <= c <= 'F' then Some(c as int - 'A' as int + 10)
    else if 'a' <= c <= 'f' then Some(c as int - 'a' as int + 10)
    else None
  }

  lemma HexValOfDigit(n: nat)
    requires n < 16
    ensures HexVal(HexDigit(n)) == Some(n)
  {
  }

  /** The byte written as `%XX` at position `i`, if there is one. */
  function EscapeAt(s: string, i: nat): Option<Byte> {
    if i + 3 <= |s| && s[i] == '%' && HexVal(s[i + 1]).Some? && HexVal(s[i + 2]).Some?
       && HexVal(s[i + 1]).value < 16 && HexVal(s[i + 2]).value < 16
    then Some(HexVal(s[i + 1]).value * 16 + HexVal(s[i + 2]).value)
    else None
  }

  /** How many bytes a UTF-8 sequence with this leading byte has (0 when it cannot lead). */
  function SeqLength(b0: Byte): nat {
    if b0 < 0x80 then 1
    else if 0xC0 <= b0 < 0xE0 then 2
    else if 0xE0 <= b0 < 0xF0 then 3
    else if 0xF0 <= b0 < 0xF8 then 4
    else 0
  }

  predicate Continuation(b: Byte) {
    0x80 <= b < 0xC0
  }

  /** The code point spelled by a complete UTF-8 sequence. */
  function CodePoint(bs: seq<Byte>): int
    requires 1 <= |bs| <= 4
  {
    var b0: int := bs[0];
    if |bs| == 1 then b0
    else
      var b1: int := bs[1];
      if |bs| == 2 then (b0 - 0xC0) * 64 + (b1 - 0x80)
      else
        var b2: int := bs[2];
        if |bs| == 3 then ((b0 - 0xE0) * 64 + (b1 - 0x80)) * 64 + (b2 - 0x80)
        else
          var b3: int := bs[3];
          (((b0 - 0xF0) * 64 + (b1 - 0x80)) * 64 + (b2 - 0x80)) * 64 + (b3 - 0x80)
  }

  predicate IsScalar(cp: int) {
    (0 <= cp < 0xD800) || (0xE000 <= cp < 0x110000)
  }

  /** The `n` bytes escaped from position `i` on. */
  function EscapesAt(s: string, i: nat, n: nat): Option<seq<Byte>>
    decreases n
  {
    if n == 0 then Some([])
    else
      match EscapeAt(s, i)
      case None => None
      case Some(b) =>
        match EscapesAt(s, i + 3, n - 1)
        case None => None
        case Some(rest) => Some([b] + rest)
  }

  /** The first character of an encoded text and how many characters spell it. */
  function DecodeOne(s: string): Option<(char, nat)>
    requires s != []
  {
    if s[0] != '%' then Some((s[0], 1))
    else
      match EscapeAt(s, 0)
      case None => None
      case Some(b0) =>
        var n := SeqLength(b0);
        if n == 0 then None
        else
          match EscapesAt(s, 0, n)
          case None => None
          case Some(bs) =>
            if |bs| == n && (forall j :: 1 <= j < n ==> Continuation(bs[j])) && IsScalar(CodePoint(bs))
            then Some((CodePoint(bs) as char, 3 * n))
            else None
  }

  /** A percent-decoder: the inverse of `Encode`. */
  function Decode(s: string): Option<string>
    decreases |s|
  {
    if s == [] then Some("")
    else
      match DecodeOne(s)
      case None => None
      case Some(p) =>
        if p.1 == 0 || p.1 > |s| then None
        else
          match Decode(s[p.1..])
          case None => None
          case Some(rest) => Some([p.0] + rest)
  }

  lemma HexPair(b: Byte)
    ensures HexVal(HexDigit(b / 16)) == Some(b / 16) && HexVal(HexDigit(b % 16)) == Some(b % 16)
    ensures (b / 16) * 16 + b % 16 == b
  {
    HexValOfDigit(b / 16);
    HexValOfDigit(b % 16);
  }

  /** The escape of byte `j` of `bs` reads back as that byte, whatever follows the escapes. */
  lemma EscapeAtOfEscapes(bs: seq<Byte>, rest: string, j: nat)
    requires j < |bs|
    ensures EscapeAt(Escapes(bs) + rest, 3 * j) == Some(bs[j])
  {
    var s := Escapes(bs) + rest;
    EscapesAt3(bs, j);
    assert s[3 * j] == '%' && s[3 * j + 1] == HexDigit(bs[j] / 16) && s[3 * j + 2] == HexDigit(bs[j] % 16);
    HexPair(bs[j]);
  }

  lemma {:induction false} EscapesAtOfEscapes(bs: seq<Byte>, rest: string, k: nat)
    requires k <= |bs|
    ensures EscapesAt(Escapes(bs) + rest, 3 * (|bs| - k), k) == Some(bs[|bs| - k..])
    decreases k
  {
    if k > 0 {
      var s := Escapes(bs) + rest;
      var j := |bs| - k;
      EscapeAtOfEscapes(bs, rest, j);
      EscapesAtOfEscapes(bs, rest, k - 1);
      assert 3 * j + 3 == 3 * (|bs| - (k - 1));
      assert EscapesAt(s, 3 * j, k) == Some([bs[j]] + bs[j + 1..]);
      assert bs[j..] == [bs[j]] + bs[j + 1..];
    } else {
      assert bs[|bs|..] == [];
    }
  }

  /** The UTF-8 sequence of a scalar value reads back as that value. */
  lemma Utf8RoundTrip(c: char)
    ensures SeqLength(Utf8(c)[0]) == |Utf8(c)|
    ensures forall j :: 1 <= j < |Utf8(c)| ==> Continuation(Utf8(c)[j])
    ensures CodePoint(Utf8(c)) == c as int
  {
    var cp := c as int;
    if cp < 0x80 {
    } else if cp < 0x800 {
      Utf8Two(cp);
    } else if cp < 0x10000 {
      Utf8Three(cp);
    } else {
      Utf8Four(cp);
    }
  }

  lemma Utf8Two(cp: int)
    requires 0x80 <= cp < 0x800
    ensures var bs: seq<Byte> := [0xC0 + cp / 64, 0x80 + cp % 64];
      SeqLength(bs[0]) == 2 && Continuation(bs[1]) && CodePoint(bs) == cp
  {
    assert (cp / 64) * 64 + cp % 64 == cp;
  }

  lemma Utf8Three(cp: int)
    requires 0x800 <= cp < 0x10000
    ensures var bs: seq<Byte> := [0xE0 + cp / 4096, 0x80 + (cp / 64) % 64, 0x80 + cp % 64];
      SeqLength(bs[0]) == 3 && Continuation(bs[1]) && Continuation(bs[2]) && CodePoint(bs) == cp
  {
    assert cp / 4096 * 64 + (cp / 64) % 64 == cp / 64;
    assert (cp / 64) * 64 + cp % 64 == cp;
  }

  lemma Utf8Four(cp: int)
    requires 0x10000 <= cp < 0x110000
    ensures var bs: seq<Byte> := [0xF0 + cp / 262144, 0x80 + (cp / 4096) % 64, 0x80 + (cp / 64) % 64, 0x80 + cp % 64];
      SeqLength(bs[0]) == 4 && Continuation(bs[1]) && Continuation(bs[2]) && Continuation(bs[3])
      && CodePoint(bs) == cp
  {
    assert cp / 262144 * 64 + (cp / 4096) % 64 == cp / 4096;
    assert cp / 4096 * 64 + (cp / 64) % 64 == cp / 64;
    assert (cp / 64) * 64 + cp % 64 == cp;
  }

  lemma DecodeOneOfEncodeChar(c: char, rest: string)
    ensures DecodeOne(EncodeChar(c) + rest) == Some((c, |EncodeChar(c)|))
  {
    var s := EncodeChar(c) + rest;
    if !Unreserved(c) {
      var bs := Utf8(c);
      assert EncodeChar(c) == Escapes(bs);
      EscapesAtOfEscapes(bs, rest, |bs|);
      assert bs[0..] == bs;
      assert s[0] == '%';
      HexPair(bs[0]);
      assert EscapeAt(s, 0) == Some(bs[0]);
      Utf8RoundTrip(c);
    }
  }

  /** Decoding an encoded text gives the text back. */
  lemma {:induction false} DecodeEncode(s: string)
    ensures Decode(Encode(s)) == Some(s)
    decreases |s|
  {
    if s != [] {
      var e := EncodeChar(s[0]);
      var r := Encode(s[1..]);
      assert Encode(s) == e + r;
      DecodeOneOfEncodeChar(s[0], r);
      assert (e + r)[|e|..] == r;
      DecodeEncode(s[1..]);
      assert [s[0]] + s[1..] == s;
    }
  }

  /** Distinct texts have distinct encodings. */
  lemma EncodeInjective(s: string, t: string)
    requires Encode(s) == Encode(t)
    ensures s == t
  {
    DecodeEncode(s);
    DecodeEncode(t);
  }
}
