/** Option and Result, for absent values and for the calls that throw. */
module Wrappers {

  datatype Option<+T> = None | Some(value: T)

  datatype Result<+T, +E> = Success(value: T) | Failure(error: E)
}

/**
 * The JavaScript values the client library reads and writes, with the few
 * built-in operations it relies on: truthiness, `typeof`, `==` against null,
 * property reads and writes, `for-in` over own properties, `String(x)`,
 * `Number(x)`, and ASCII `toLowerCase`/`toUpperCase`.
 */
module JsValues {

  /**
   * A JavaScript value. Numbers are integers or NaN (fractions are not
   * modelled). A function is known by its source text only; calling one is
   * modelled where the library does it.
   */
  datatype Value =
    | Undefined
    | Null
    | Bool(b: bool)
    | Num(n: int)
    | NaN
    | Str(s: string)
    | Obj(d: Dict)
    | Arr(items: seq<Value>)
    | Fn(source: string)

  /**
   * A plain object: its own enumerable property names in enumeration
   * (insertion) order, and the value of each.
   */
  datatype Dict = Dict(keys: seq<string>, vals: map<string, Value>)

  /** What a call throws: a `TypeError` from the engine, or an `Error` the library raises. */
  datatype Thrown = TypeError(message: string) | Error(message: string)

  /** `{}` */
  const Empty: Dict := Dict([], map[])

  ghost predicate Distinct(s: seq<string>) {
    forall i, j :: 0 <= i < j < |s| ==> s[i] != s[j]
  }

  /** What every JavaScript object satisfies: each own property is listed once. */
  ghost predicate Wf(d: Dict) {
    Distinct(d.keys) && (forall k :: k in d.vals <==> k in d.keys)
  }

  /** `obj[k]` for an own property: undefined when absent. */
  function Lookup(d: Dict, k: string): Value {
    if k in d.vals then d.vals[k] else Undefined
  }

  /** `obj[k] = v`: an existing property keeps its place, a new one goes last. */
  function Put(d: Dict, k: string, v: Value): (r: Dict)
    ensures Wf(d) ==> Wf(r)
    ensures r.vals == d.vals[k := v]
    ensures k in d.vals ==> r.keys == d.keys
    ensures Wf(d) && k !in d.vals ==> r.keys == d.keys + [k]
  {
    if k in d.vals then Dict(d.keys, d.vals[k := v]) else Dict(d.keys + [k], d.vals[k := v])
  }

  /** `v.k` on any value that is not null or undefined. */
  function Get(v: Value, k: string): Value {
    if v.Obj? then Lookup(v.d, k) else Undefined
  }

  /** JavaScript truthiness. */
  predicate Truthy(v: Value) {
    match v
    case Undefined => false
    case Null => false
    case Bool(b) => b
    case Num(n) => n != 0
    case NaN => false
    case Str(s) => s != ""
    case _ => true
  }

  /** `v == null` (loose equality): true of null and undefined only. */
  predicate IsNullish(v: Value) {
    v.Undefined? || v.Null?
  }

  /** The `typeof` operator. */
  function TypeOf(v: Value): string {
    match v
    case Undefined => "undefined"
    case Null => "object"
    case Bool(_) => "boolean"
    case Num(_) => "number"
    case NaN => "number"
    case Str(_) => "string"
    case Obj(_) => "object"
    case Arr(_) => "object"
    case Fn(_) => "function"
  }

  function Digit(n: nat): char
    requires n < 10
  {
    ('0' as int + n) as char
  }

  predicate IsDigit(c: char) {
    '0' <= c <= '9'
  }

  /** The decimal representation of a natural number, as `String(n)` gives it. */
  function NatStr(n: nat): (r: string)
    ensures |r| >= 1
    ensures forall i :: 0 <= i < |r| ==> IsDigit(r[i])
    ensures n >= 10 <==> |r| >= 2
    decreases n
  {
    if n < 10 then [Digit(n)] else NatStr(n / 10) + [Digit(n % 10)]
  }

  function IntStr(i: int): string {
    if i >= 0 then NatStr(i) else "-" + NatStr(-i)
  }

  /** The value of a string of decimal digits. */
  function DigitsValue(s: string): nat
    requires forall i :: 0 <= i < |s| ==> IsDigit(s[i])
  {
    if s == [] then 0 else DigitsValue(s[..|s| - 1]) * 10 + DigitVal(s[|s| - 1])
  }

  function DigitVal(c: char): nat
    requires IsDigit(c)
  {
    c as int - '0' as int
  }

  lemma {:induction false} DigitsValueOfNatStr(n: nat)
    ensures DigitsValue(NatStr(n)) == n
    decreases n
  {
    if n >= 10 {
      var s := NatStr(n);
      assert s[..|s| - 1] == NatStr(n / 10);
      DigitsValueOfNatStr(n / 10);
    }
  }

  /** Distinct numbers have distinct decimal representations. */
  lemma {:induction false} NatStrInjective(a: nat, b: nat)
    requires NatStr(a) == NatStr(b)
    ensures a == b
  {
    DigitsValueOfNatStr(a);
    DigitsValueOfNatStr(b);
  }

  /** `String(v)`, as used by string concatenation and by `encodeURIComponent`. */
  function ToStr(v: Value): string
    decreases v, 1
  {
    match v
    case Undefined => "undefined"
    case Null => "null"
    case Bool(b) => if b then "true" else "false"
    case Num(n) => IntStr(n)
    case NaN => "NaN"
    case Str(s) => s
    case Obj(_) => "[object Object]"
    case Arr(items) => JoinElements(v, items)
    case Fn(source) => source
  }

  /** `Array.prototype.join(',')`: null and undefined elements become empty. */
  function JoinElements(ghost whole: Value, items: seq<Value>): string
    requires forall i :: 0 <= i < |items| ==> items[i] < whole
    decreases whole, 0, |items|
  {
    if items == [] then ""
    else
      var last := items[|items| - 1];
      var prefix := JoinElements(whole, items[..|items| - 1]);
      var text := if IsNullish(last) then "" else ToStr(last);
      if |items| == 1 then text else prefix + "," + text
  }

  /**
   * The characters `Number` trims from both ends of a string: the
   * WhiteSpace and LineTerminator characters of ECMA-262 (sections 7.2 and
   * 7.3 of the 5.1 edition), with the space separators of Unicode.
   */
  predicate IsJsSpace(c: char) {
    var u := c as int;
    u == 0x09 || u == 0x0A || u == 0x0B || u == 0x0C || u == 0x0D || u == 0x20 || u == 0xA0
    || u == 0x1680 || (0x2000 <= u <= 0x200A) || u == 0x2028 || u == 0x2029
    || u == 0x202F || u == 0x205F || u == 0x3000 || u == 0xFEFF
  }

  predicate AllSpace(s: string) {
    forall i :: 0 <= i < |s| ==> IsJsSpace(s[i])
  }

  /** `s` without its leading white space. */
  function TrimStart(s: string): string
  {
    if s != [] && IsJsSpace(s[0]) then TrimStart(s[1..]) else s
  }

  /** `s` without its trailing white space. */
  function TrimEnd(s: string): string
  {
    if s != [] && IsJsSpace(s[|s| - 1]) then TrimEnd(s[..|s| - 1]) else s
  }

  function Trim(s: string): string {
    TrimEnd(TrimStart(s))
  }

  predicate AllDigits(s: string) {
    forall i :: 0 <= i < |s| ==> IsDigit(s[i])
  }

  /** The value of a hexadecimal digit, of either case; 16 for any other character. */
  function HexDigitVal(c: char): (r: nat)
    ensures r <= 16
  {
    if '0' <= c <= '9' then c as int - '0' as int
    else if 'a' <= c <= 'f' then c as int - 'a' as int + 10
    else if 'A' <= c <= 'F' then c as int - 'A' as int + 10
    else 16
  }

  predicate AllRadixDigits(s: string, radix: nat) {
    forall i :: 0 <= i < |s| ==> HexDigitVal(s[i]) < radix
  }

  /** The value of a string of digits in base `radix`. */
  function RadixValue(s: string, radix: nat): nat
    requires AllRadixDigits(s, radix)
  {
    if s == [] then 0 else RadixValue(s[..|s| - 1], radix) * radix + HexDigitVal(s[|s| - 1])
  }

  /** The base a `0x`, `0o` or `0b` prefix (either case) announces; 0 without one. */
  function RadixPrefix(s: string): nat {
    if |s| >= 2 && s[0] == '0' then
      if s[1] == 'x' || s[1] == 'X' then 16
      else if s[1] == 'o' || s[1] == 'O' then 8
      else if s[1] == 'b' || s[1] == 'B' then 2
      else 0
    else 0
  }

  /** The position of the first `a` or `b` in `s`, or `|s|` when there is none. */
  function FirstOf(s: string, a: char, b: char): (i: nat)
    ensures i <= |s|
  {
    if s == [] || s[0] == a || s[0] == b then 0 else 1 + FirstOf(s[1..], a, b)
  }

  function Pow10(k: nat): (r: nat)
    ensures r >= 1
  {
    if k == 0 then 1 else 10 * Pow10(k - 1)
  }

  /** What a StringNumericLiteral denotes, as far as model numbers go. */
  datatype Numeric =
    | Integer(i: int)
    | NonInteger      // a fraction, or Infinity: a number the model does not represent
    | NotNumeric      // not a StringNumericLiteral: NaN

  /** The exponent after `e`/`E`: an optional sign and at least one digit. */
  function Exponent(x: string): Numeric {
    if x != [] && (x[0] == '+' || x[0] == '-') && |x| > 1 && AllDigits(x[1..]) then
      Integer(if x[0] == '-' then 0 - DigitsValue(x[1..]) else DigitsValue(x[1..]))
    else if x != [] && AllDigits(x) then Integer(DigitsValue(x))
    else NotNumeric
  }

  /** `m * 10^k` when it is an integer. */
  function Scaled(m: nat, k: int): Numeric {
    if k >= 0 then Integer(m * Pow10(k))
    else if m % Pow10(-k) == 0 then Integer(m / Pow10(-k))
    else NonInteger
  }

  /**
   * A StrUnsignedDecimalLiteral other than `Infinity`: a mantissa, then an
   * optional exponent after the first `e` or `E`.
   */
  function UnsignedDecimal(s: string): Numeric {
    var e := FirstOf(s, 'e', 'E');
    Mantissa(s[..e], if e < |s| then Exponent(s[e + 1..]) else Integer(0))
  }

  /**
   * Digits, an optional `.` and fraction digits, at least one digit in all,
   * scaled by `exponent`: the digits with the point removed, times ten to
   * the exponent less the number of fraction digits.
   */
  function Mantissa(m: string, exponent: Numeric): Numeric {
    var dot := FirstOf(m, '.', '.');
    var whole := m[..dot];
    var fraction := if dot < |m| then m[dot + 1..] else "";
    if exponent.Integer? && AllDigits(whole) && AllDigits(fraction) && |whole| + |fraction| >= 1 then
      Scaled(DigitsValue(whole + fraction), exponent.i - |fraction|)
    else NotNumeric
  }

  /**
   * A trimmed string read as a StringNumericLiteral (ECMA-262, section
   * 7.1.3.1 of the 2015 edition): empty is 0; a `0x`/`0o`/`0b` prefix takes
   * unsigned digits of that base; otherwise an optional sign, then
   * `Infinity` or a decimal literal.
   */
  function NumericLiteral(s: string): Numeric {
    if s == [] then Integer(0)
    else if RadixPrefix(s) != 0 then
      var digits := s[2..];
      if digits != [] && AllRadixDigits(digits, RadixPrefix(s)) then Integer(RadixValue(digits, RadixPrefix(s)))
      else NotNumeric
    else
      var body := if s[0] == '+' || s[0] == '-' then s[1..] else s;
      if body == "Infinity" then NonInteger
      else match UnsignedDecimal(body)
        case Integer(n) => Integer(if s[0] == '-' then 0 - n else n)
        case other => other
  }

  /**
   * `Number(s)` for a string: white space around it is ignored, and a
   * well-formed literal gives its value. A literal whose value is not an
   * integer has no model number and gives NaN here.
   */
  function StrToNumber(s: string): (r: Value)
    ensures r.Num? || r.NaN?
  {
    match NumericLiteral(Trim(s))
    case Integer(i) => Num(i)
    case _ => NaN
  }

  /** `Number(v)`. */
  function ToNumber(v: Value): (r: Value)
    ensures r.Num? || r.NaN?
  {
    match v
    case Undefined => NaN
    case Null => Num(0)
    case Bool(b) => Num(if b then 1 else 0)
    case Num(n) => Num(n)
    case NaN => NaN
    case Str(s) => StrToNumber(s)
    case Obj(_) => NaN
    case Arr(_) => StrToNumber(ToStr(v))
    case Fn(_) => NaN
  }

  /** `Number` reads back what `String` writes for every integer. */
  lemma NumberOfString(i: int)
    ensures ToNumber(Str(IntStr(i))) == Num(i)
  {
    if i >= 0 {
      NumberOfNatStr(i);
    } else {
      NumberOfNegated(-i);
    }
  }

  lemma NumberOfNatStr(n: nat)
    ensures StrToNumber(NatStr(n)) == Num(n)
  {
    DigitsValueOfNatStr(n);
    NumberOfDigits(NatStr(n));
  }

  /** A string of decimal digits, leading zeros and all, reads as its decimal value. */
  lemma NumberOfDigits(t: string)
    requires t != [] && AllDigits(t)
    ensures StrToNumber(t) == Num(DigitsValue(t))
  {
    UnsignedDecimalOfDigits(t);
    assert |t| >= 2 ==> IsDigit(t[1]);
    NumberOfUnsigned(t, DigitsValue(t));
  }

  lemma NumberOfNegated(n: nat)
    ensures StrToNumber("-" + NatStr(n)) == Num(0 - n)
  {
    var t := NatStr(n);
    DigitsValueOfNatStr(n);
    UnsignedDecimalOfDigits(t);
    var s := "-" + t;
    assert s[1..] == t;
    assert s[|s| - 1] == t[|t| - 1];
    TrimUnpadded(s);
    assert t[0] != 'I';
    LiteralOfNegative(s, n);
  }

  /** A decimal literal without a sign reads as its decimal value. */
  lemma LiteralOfUnsigned(s: string, n: int)
    requires s != [] && RadixPrefix(s) == 0 && s[0] != '+' && s[0] != '-' && s[0] != 'I'
    requires UnsignedDecimal(s) == Integer(n)
    ensures NumericLiteral(s) == Integer(n)
  {
    assert s != "Infinity";
  }

  /** A decimal literal after `-` reads as its negated value. */
  lemma LiteralOfNegative(s: string, n: nat)
    requires |s| >= 2 && s[0] == '-' && s[1..] != "Infinity"
    requires UnsignedDecimal(s[1..]) == Integer(n)
    ensures NumericLiteral(s) == Integer(0 - n)
  {
  }

  /** A string that neither starts nor ends with white space is its own trim. */
  lemma TrimUnpadded(s: string)
    requires s != [] && !IsJsSpace(s[0]) && !IsJsSpace(s[|s| - 1])
    ensures Trim(s) == s
  {
  }

  lemma {:induction false} FirstOfAbsent(s: string, a: char, b: char)
    requires forall i :: 0 <= i < |s| ==> s[i] != a && s[i] != b
    ensures FirstOf(s, a, b) == |s|
    decreases |s|
  {
    if s != [] {
      FirstOfAbsent(s[1..], a, b);
    }
  }

  /** Digits alone are a decimal literal with their own value. */
  lemma UnsignedDecimalOfDigits(t: string)
    requires t != [] && AllDigits(t)
    ensures UnsignedDecimal(t) == Integer(DigitsValue(t))
  {
    FirstOfAbsent(t, 'e', 'E');
    assert t[..|t|] == t;
    MantissaOfDigits(t, 0);
  }

  /** A mantissa without a point is its digits scaled by the exponent. */
  lemma MantissaOfDigits(t: string, k: int)
    requires t != [] && AllDigits(t)
    ensures Mantissa(t, Integer(k)) == Scaled(DigitsValue(t), k)
  {
    FirstOfAbsent(t, '.', '.');
    assert t[..|t|] == t && t + "" == t;
  }

  /** White space before or after a string does not change what `Number` reads. */
  lemma NumberIgnoresSpace(pad: string, s: string)
    requires AllSpace(pad)
    ensures StrToNumber(pad + s) == StrToNumber(s)
    ensures StrToNumber(s + pad) == StrToNumber(s)
  {
    TrimStartPadded(pad, s);
    if TrimStart(s) != [] {
      TrimStartAppend(s, pad);
      TrimEndPadded(TrimStart(s), pad);
    } else {
      TrimStartBlank(s, pad);
      TrimStartPadded(pad, []);
      assert pad + [] == pad;
    }
  }

  lemma {:induction false} TrimStartPadded(pad: string, s: string)
    requires AllSpace(pad)
    ensures TrimStart(pad + s) == TrimStart(s)
    decreases |pad|
  {
    if pad != [] {
      var w := pad + s;
      assert w[0] == pad[0] && IsJsSpace(pad[0]);
      assert w[1..] == pad[1..] + s;
      TrimStartPadded(pad[1..], s);
      assert TrimStart(w) == TrimStart(w[1..]);
    } else {
      assert pad + s == s;
    }
  }

  lemma {:induction false} TrimEndPadded(s: string, pad: string)
    requires AllSpace(pad)
    ensures TrimEnd(s + pad) == TrimEnd(s)
    decreases |pad|
  {
    if pad != [] {
      var n := |pad| - 1;
      var w := s + pad;
      assert w[|w| - 1] == pad[n] && IsJsSpace(pad[n]);
      assert w[..|w| - 1] == s + pad[..n];
      TrimEndPadded(s, pad[..n]);
      assert TrimEnd(w) == TrimEnd(w[..|w| - 1]);
    } else {
      assert s + pad == s;
    }
  }

  lemma {:induction false} TrimStartAppend(s: string, pad: string)
    requires TrimStart(s) != []
    ensures TrimStart(s + pad) == TrimStart(s) + pad
    decreases |s|
  {
    assert (s + pad)[0] == s[0];
    if IsJsSpace(s[0]) {
      assert (s + pad)[1..] == s[1..] + pad;
      TrimStartAppend(s[1..], pad);
    }
  }

  lemma {:induction false} TrimStartBlank(s: string, pad: string)
    requires TrimStart(s) == []
    ensures TrimStart(s + pad) == TrimStart(pad)
    decreases |s|
  {
    if s != [] {
      assert (s + pad)[0] == s[0];
      assert (s + pad)[1..] == s[1..] + pad;
      TrimStartBlank(s[1..], pad);
    } else {
      assert s + pad == pad;
    }
  }

  /** `Number` reads the exponent form `<digits>e<digits>` as the mantissa times ten to the exponent. */
  lemma NumberExponent(t: string, x: string)
    requires t != [] && AllDigits(t) && x != [] && AllDigits(x)
    ensures StrToNumber(t + "e" + x) == Num(DigitsValue(t) * Pow10(DigitsValue(x)))
  {
    var s := t + "e" + x;
    UnsignedDecimalExponent(t, x);
    assert s[0] == t[0] && s[|s| - 1] == x[|x| - 1];
    assert s[1] == if |t| >= 2 then t[1] else 'e';
    NumberOfUnsigned(s, DigitsValue(t) * Pow10(DigitsValue(x)));
  }

  /** A string that starts with a digit, has no radix prefix and reads as a decimal literal. */
  lemma NumberOfUnsigned(s: string, n: int)
    requires s != [] && IsDigit(s[0]) && !IsJsSpace(s[|s| - 1])
    requires |s| >= 2 ==> s[1] != 'x' && s[1] != 'X' && s[1] != 'o' && s[1] != 'O' && s[1] != 'b' && s[1] != 'B'
    requires UnsignedDecimal(s) == Integer(n)
    ensures StrToNumber(s) == Num(n)
  {
    TrimUnpadded(s);
    LiteralOfUnsigned(s, n);
  }

  lemma UnsignedDecimalExponent(t: string, x: string)
    requires t != [] && AllDigits(t) && x != [] && AllDigits(x)
    ensures UnsignedDecimal(t + "e" + x) == Integer(DigitsValue(t) * Pow10(DigitsValue(x)))
  {
    var s := t + ("e" + x);
    assert s == t + "e" + x;
    FirstOfAbsent(t, 'e', 'E');
    FirstOfPast(t, "e" + x, 'e', 'E');
    assert s[..|t|] == t && s[|t| + 1..] == x;
    assert Exponent(x) == Integer(DigitsValue(x));
    MantissaOfDigits(t, DigitsValue(x));
  }

  lemma {:induction false} FirstOfPast(t: string, u: string, a: char, b: char)
    requires FirstOf(t, a, b) == |t|
    requires u != [] && (u[0] == a || u[0] == b)
    ensures FirstOf(t + u, a, b) == |t|
    decreases |t|
  {
    if t == [] {
      assert t + u == u;
    } else {
      assert (t + u)[0] == t[0];
      assert (t + u)[1..] == t[1..] + u;
      FirstOfPast(t[1..], u, a, b);
    }
  }

  /**
   * `Number` reads `0x…`, `0o…` and `0b…` (either case) as the value of the
   * digits in base 16, 8 and 2.
   */
  lemma NumberRadix(c: char, t: string)
    requires c == 'x' || c == 'X' || c == 'o' || c == 'O' || c == 'b' || c == 'B'
    requires t != [] && AllRadixDigits(t, RadixPrefix(['0', c]))
    ensures RadixPrefix(['0', c]) == (if c == 'x' || c == 'X' then 16 else if c == 'o' || c == 'O' then 8 else 2)
    ensures StrToNumber(['0', c] + t) == Num(RadixValue(t, RadixPrefix(['0', c])))
  {
    var s := ['0', c] + t;
    assert HexDigitVal(t[|t| - 1]) < 16;
    assert s[0] == '0' && s[1] == c && s[|s| - 1] == t[|t| - 1];
    assert s[2..] == t;
    TrimUnpadded(s);
  }

  /** A `+` before decimal digits changes nothing. */
  lemma NumberPlus(t: string)
    requires t != [] && AllDigits(t)
    ensures StrToNumber("+" + t) == Num(DigitsValue(t))
  {
    var s := "+" + t;
    UnsignedDecimalOfDigits(t);
    assert s[1..] == t && s[|s| - 1] == t[|t| - 1];
    assert t != "Infinity" by { assert IsDigit(t[0]); }
    TrimUnpadded(s);
  }

  /** A sign before a radix prefix makes the string no number at all: `Number('-0x10')` is NaN. */
  lemma SignedRadixIsNaN(sign: char, c: char, t: string)
    requires sign == '+' || sign == '-'
    requires c == 'x' || c == 'X' || c == 'o' || c == 'O' || c == 'b' || c == 'B'
    requires t == [] || !IsJsSpace(t[|t| - 1])
    ensures StrToNumber([sign, '0', c] + t) == NaN
  {
    var s := [sign, '0', c] + t;
    assert s[|s| - 1] == if t == [] then c else t[|t| - 1];
    TrimUnpadded(s);
    var body := s[1..];
    assert body == ['0', c] + t;
    assert body[0] == '0' && body[1] == c;
    UnsignedDecimalNotDigits(body);
    assert body != "Infinity";
  }

  /** A second character that is no digit, point or exponent mark spoils a decimal literal. */
  lemma UnsignedDecimalNotDigits(b: string)
    requires |b| >= 2 && b[0] != 'e' && b[0] != 'E' && b[0] != '.'
    requires b[1] != 'e' && b[1] != 'E' && b[1] != '.' && !IsDigit(b[1])
    ensures UnsignedDecimal(b) == NotNumeric
  {
    FirstOfPastTwo(b, 'e', 'E');
    var e := FirstOf(b, 'e', 'E');
    var m := b[..e];
    assert m[0] == b[0] && m[1] == b[1];
    MantissaNotDigits(m, if e < |b| then Exponent(b[e + 1..]) else Integer(0));
  }

  lemma MantissaNotDigits(m: string, exponent: Numeric)
    requires |m| >= 2 && m[0] != '.' && m[1] != '.' && !IsDigit(m[1])
    ensures Mantissa(m, exponent) == NotNumeric
  {
    FirstOfPastTwo(m, '.', '.');
    assert m[..FirstOf(m, '.', '.')][1] == m[1];
  }

  /** The first `a` or `b` is not among the first two characters when neither of them is one. */
  lemma FirstOfPastTwo(s: string, a: char, b: char)
    requires |s| >= 2 && s[0] != a && s[0] != b && s[1] != a && s[1] != b
    ensures FirstOf(s, a, b) >= 2
  {
    assert s[1..][0] == s[1];
  }

  /** The own enumerable properties of an array (or string): "0", "1", ... */
  function IndexDict(items: seq<Value>): Dict {
    if items == [] then Empty
    else
      var n := |items| - 1;
      Put(IndexDict(items[..n]), NatStr(n), items[n])
  }

  /** The index properties are well formed, listed in order, one per element. */
  lemma {:induction false} IndexDictFacts(items: seq<Value>)
    ensures Wf(IndexDict(items))
    ensures |IndexDict(items).keys| == |items|
    ensures forall i :: 0 <= i < |items| ==> IndexDict(items).keys[i] == NatStr(i)
    ensures forall i :: 0 <= i < |items| ==> NatStr(i) in IndexDict(items).vals && IndexDict(items).vals[NatStr(i)] == items[i]
    decreases |items|
  {
    if items != [] {
      var n := |items| - 1;
      IndexDictFacts(items[..n]);
      IndexDictStep(items, IndexDict(items[..n]));
    }
  }

  lemma IndexDictStep(items: seq<Value>, prefix: Dict)
    requires |items| > 0
    requires Wf(prefix) && |prefix.keys| == |items| - 1
    requires forall i :: 0 <= i < |items| - 1 ==> prefix.keys[i] == NatStr(i)
    requires forall i :: 0 <= i < |items| - 1 ==> NatStr(i) in prefix.vals && prefix.vals[NatStr(i)] == items[..|items| - 1][i]
    ensures NatStr(|items| - 1) !in prefix.vals
    ensures var r := Put(prefix, NatStr(|items| - 1), items[|items| - 1]);
      Wf(r) && |r.keys| == |items| &&
      (forall i :: 0 <= i < |items| ==> r.keys[i] == NatStr(i)) &&
      (forall i :: 0 <= i < |items| ==> NatStr(i) in r.vals && r.vals[NatStr(i)] == items[i])
  {
    var n := |items| - 1;
    IndexKeyFresh(prefix, n);
    var r := Put(prefix, NatStr(n), items[n]);
    assert r.keys == prefix.keys + [NatStr(n)];
    assert r.vals == prefix.vals[NatStr(n) := items[n]];
    forall i | 0 <= i < |items| ensures r.keys[i] == NatStr(i) {
      if i < n {
        assert r.keys[i] == prefix.keys[i];
      }
    }
    forall i | 0 <= i < |items| ensures NatStr(i) in r.vals && r.vals[NatStr(i)] == items[i] {
      if i < n {
        IndexEntryKept(items, prefix.vals, i, n);
      }
    }
  }

  /** An earlier index keeps its entry when index `n` is added. */
  lemma IndexEntryKept(items: seq<Value>, vals: map<string, Value>, i: nat, n: nat)
    requires i < n < |items|
    requires NatStr(i) in vals && vals[NatStr(i)] == items[..n][i]
    ensures NatStr(i) in vals[NatStr(n) := items[n]] && vals[NatStr(n) := items[n]][NatStr(i)] == items[i]
  {
    assert items[..n][i] == items[i];
    assert NatStr(i) != NatStr(n) by { if NatStr(i) == NatStr(n) { NatStrInjective(i, n); } }
  }

  lemma IndexKeyFresh(prefix: Dict, n: nat)
    requires Wf(prefix) && |prefix.keys| == n
    requires forall i :: 0 <= i < n ==> prefix.keys[i] == NatStr(i)
    ensures NatStr(n) !in prefix.vals
  {
    if NatStr(n) in prefix.vals {
      var i :| 0 <= i < n && prefix.keys[i] == NatStr(n);
      NatStrInjective(i, n);
    }
  }

  /** The single-character strings of a string primitive. */
  function Chars(s: string): seq<Value> {
    seq(|s|, i requires 0 <= i < |s| => Str([s[i]]))
  }

  /**
   * The properties a `for-in` loop guarded by `hasOwnProperty` visits: those
   * of an object, the indices of an array or a string, and none for anything
   * else (null, undefined, booleans, numbers, functions).
   */
  function OwnProps(v: Value): (r: Dict)
    ensures v.Obj? ==> r == v.d
    ensures !Truthy(v) ==> r == Empty
  {
    match v
    case Obj(d) => d
    case Arr(items) => IndexDict(items)
    case Str(s) => IndexDict(Chars(s))
    case _ => Empty
  }

  /** The value of a well-formed object has well-formed own properties. */
  ghost predicate WfValue(v: Value) {
    v.Obj? ==> Wf(v.d)
  }

  lemma OwnPropsWf(v: Value)
    requires WfValue(v)
    ensures Wf(OwnProps(v))
  {
    if v.Arr? {
      IndexDictFacts(v.items);
    } else if v.Str? {
      IndexDictFacts(Chars(v.s));
    }
  }

  predicate IsUpperAscii(c: char) { 'A' <= c <= 'Z' }

  predicate IsLowerAscii(c: char) { 'a' <= c <= 'z' }

  function LowerChar(c: char): char {
    if IsUpperAscii(c) then (c as int + 32) as char else c
  }

  function UpperChar(c: char): char {
    if IsLowerAscii(c) then (c as int - 32) as char else c
  }

  /** `s.toLowerCase()`, for the ASCII letters. */
  function ToLower(s: string): (r: string)
    ensures |r| == |s|
  {
    seq(|s|, i requires 0 <= i < |s| => LowerChar(s[i]))
  }

  /** `s.toUpperCase()`, for the ASCII letters. */
  function ToUpper(s: string): (r: string)
    ensures |r| == |s|
  {
    seq(|s|, i requires 0 <= i < |s| => UpperChar(s[i]))
  }

  /**
   * A JavaScript object whose properties the library changes in place; the
   * reference is what `extend` returns and what `sanitizeStatsResult` hands back.
   */
  class JsObject {
    var props: Dict

    constructor (d: Dict)
      ensures props == d
    {
      props := d;
    }
  }
}
