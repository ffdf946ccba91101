/**
 * The JavaScript values that flow through property accessors, and the three
 * primitive conversions the coercion tags apply: `Boolean(v)`, `String(v)`
 * and `Number(v)`.
 *
 * Numbers are integers or NaN; fractions, infinities and -0 are outside the
 * model, and so is the part of `Number(s)` that parses them.
 */
module JsValue {

  datatype Option<T> = None | Some(value: T)

  /** A JavaScript number restricted to integral values, plus NaN. */
  datatype JsNumber = Int(i: int) | NaN

  /**
   * A JavaScript value. `Obj` is a plain key/value object (its
   * `Object.prototype.toString` tag is "Object"); `Fn` is a zero-argument
   * function, described by its source text and the value a call returns.
   */
  datatype Value =
    | Undefined
    | Null
    | Bool(b: bool)
    | Str(s: string)
    | Num(n: JsNumber)
    | Arr(elems: seq<Value>)
    | Obj(fields: map<string, Value>)
    | Fn(source: string, result: Value)

  /** `Boolean(v)`: JavaScript truthiness. */
  predicate Truthy(v: Value)
  {
    match v
    case Undefined => false
    case Null => false
    case Bool(b) => b
    case Str(s) => s != ""
    case Num(n) => n.Int? && n.i != 0
    case Arr(_) => true
    case Obj(_) => true
    case Fn(_, _) => true
  }

  // ---------------------------------------------------------------------
  // Decimal digits

  predicate IsDigit(c: char)
  {
    '0' <= c <= '9'
  }

  predicate AllDigits(s: string)
  {
    forall k :: 0 <= k < |s| ==> IsDigit(s[k])
  }

  function DigitChar(d: nat): (c: char)
    requires d < 10
    ensures IsDigit(c)
  {
    ('0' as int + d) as char
  }

  function DigitValue(c: char): (d: nat)
    requires IsDigit(c)
    ensures d < 10 && DigitChar(d) == c
  {
    c as int - '0' as int
  }

  /** The shortest decimal spelling of `n`, most significant digit first. */
  function NatToDecimal(n: nat): (r: string)
    ensures |r| >= 1 && AllDigits(r)
    ensures n > 0 ==> r[0] != '0'
  {
    if n < 10 then [DigitChar(n)] else NatToDecimal(n / 10) + [DigitChar(n % 10)]
  }

  /** The value of a string of decimal digits (leading zeros allowed). */
  function DecimalValue(s: string): nat
    requires AllDigits(s)
  {
    if s == [] then 0 else DecimalValue(s[..|s| - 1]) * 10 + DigitValue(s[|s| - 1])
  }

  lemma {:induction false} DecimalRoundTrip(n: nat)
    ensures DecimalValue(NatToDecimal(n)) == n
  {
    var s := NatToDecimal(n);
    if n >= 10 {
      assert s[..|s| - 1] == NatToDecimal(n / 10);
      DecimalRoundTrip(n / 10);
    }
  }

  // ---------------------------------------------------------------------
  // String(number) and Number(string)

  /** `String(x)` for a number. */
  function NumberToString(x: JsNumber): (r: string)
    ensures |r| >= 1
  {
    match x
    case NaN => "NaN"
    case Int(i) => if i < 0 then "-" + NatToDecimal(-i) else NatToDecimal(i)
  }

  /** The white space `Number(s)` trims from both ends (Unicode space separators beyond these are not modelled). */
  predicate IsSpace(c: char)
  {
    c == ' ' || (9 <= c as int <= 13) || c as int == 0xA0 || c as int == 0xFEFF
  }

  function TrimStart(s: string): (r: string)
    ensures |r| <= |s| && (r != [] ==> !IsSpace(r[0]))
  {
    if s != [] && IsSpace(s[0]) then TrimStart(s[1..]) else s
  }

  function TrimEnd(s: string): (r: string)
    ensures |r| <= |s|
  {
    if s != [] && IsSpace(s[|s| - 1]) then TrimEnd(s[..|s| - 1]) else s
  }

  function Trim(s: string): string
  {
    TrimEnd(TrimStart(s))
  }

  /**
   * `Number(s)` for a string: surrounding white space is ignored, the empty
   * string is 0, an optional sign followed by decimal digits is that integer,
   * and anything else is NaN.
   */
  function ParseNumber(s: string): (r: JsNumber)
    ensures AllDigits(s) && s != [] ==> r == Int(DecimalValue(s))
  {
    var t := Trim(s);
    if t == [] then Int(0)
    else if (t[0] == '-' || t[0] == '+') && |t| > 1 && AllDigits(t[1..]) then
      Int(if t[0] == '-' then -(DecimalValue(t[1..]) as int) else DecimalValue(t[1..]))
    else if AllDigits(t) then Int(DecimalValue(t))
    else NaN
  }

  lemma TrimNoSpace(s: string)
    requires s != [] && !IsSpace(s[0]) && !IsSpace(s[|s| - 1])
    ensures Trim(s) == s
  {
  }

  /** Every number's string spelling parses back to that number. */
  lemma {:induction false} NumberStringRoundTrip(x: JsNumber)
    ensures ParseNumber(NumberToString(x)) == x
  {
    var s := NumberToString(x);
    TrimNoSpace(s);
    match x
    case NaN =>
      assert !AllDigits(s) by { assert !IsDigit(s[0]); }
    case Int(i) =>
      if i < 0 {
        assert s[1..] == NatToDecimal(-i);
        DecimalRoundTrip(-i);
      } else {
        DecimalRoundTrip(i);
      }
  }

  // ---------------------------------------------------------------------
  // String(v) and Number(v)

  /** `String(v)`: an array is the comma-joined spelling of its elements, with undefined and null elements empty. */
  function ToStr(v: Value): string
    decreases v
  {
    match v
    case Undefined => "undefined"
    case Null => "null"
    case Bool(b) => if b then "true" else "false"
    case Str(s) => s
    case Num(n) => NumberToString(n)
    case Arr(es) => JoinElements(es)
    case Obj(_) => "[object Object]"
    case Fn(source, _) => source
  }

  function JoinElements(es: seq<Value>): string
    decreases es
  {
    if es == [] then ""
    else
      var head := if es[0].Undefined? || es[0].Null? then "" else ToStr(es[0]);
      if |es| == 1 then head else head + "," + JoinElements(es[1..])
  }

  /** `Number(v)`: objects, arrays and functions convert through their string spelling. */
  function ToNumber(v: Value): JsNumber
  {
    match v
    case Undefined => NaN
    case Null => Int(0)
    case Bool(b) => Int(if b then 1 else 0)
    case Str(s) => ParseNumber(s)
    case Num(n) => n
    case _ => ParseNumber(ToStr(v))
  }

  /** `String(v)` of a number parses back to the number `Number(v)` would give for it. */
  lemma NumberSpellingRoundTrip(v: Value)
    requires v.Num?
    ensures ToNumber(Str(ToStr(v))) == ToNumber(v)
  {
    NumberStringRoundTrip(v.n);
  }
}
