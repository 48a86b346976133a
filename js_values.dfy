/** Loosely typed JavaScript values as they arrive from the databases and the
    vision models, JavaScript truthiness and the `||` default idiom, and
    `String(v)`. */
module JsValues {
  import opened JsStrings

  datatype Option<+T> = None | Some(value: T)

  /** A JSON-like JavaScript value. Numbers are integers in this model. */
  datatype JsValue =
    | Undefined
    | Null
    | Bool(b: bool)
    | Number(n: int)
    | Str(s: string)
    | Array(elems: seq<JsValue>)
    | Object

  /** JavaScript truthiness: `undefined`, `null`, `false`, `0` and `""` are
      falsy; every array and object, even an empty one, is truthy. */
  predicate Truthy(v: JsValue) {
    match v
    case Undefined => false
    case Null => false
    case Bool(b) => b
    case Number(n) => n != 0
    case Str(s) => s != ""
    case Array(_) => true
    case Object => true
  }

  /** `a || b` on values. */
  function Or(a: JsValue, b: JsValue): (r: JsValue)
    ensures r == a || r == b
    ensures Truthy(r) <==> Truthy(a) || Truthy(b)
    ensures Truthy(a) ==> r == a
  {
    if Truthy(a) then a else b
  }

  /** `a || fallback` where `a` is an optional string field: the field when it
      is present and non-empty, the fallback otherwise. */
  function OrElse(a: Option<string>, fallback: string): (r: string)
    ensures r == fallback || a == Some(r)
    ensures r != "" <==> (a.Some? && a.value != "") || fallback != ""
    ensures a.Some? && a.value != "" ==> r == a.value
  {
    if a.Some? && a.value != "" then a.value else fallback
  }

  predicate IsDigit(c: char) {
    '0' <= c <= '9'
  }

  function DigitChar(d: nat): (c: char)
    requires d < 10
    ensures IsDigit(c) && c as int - '0' as int == d
  {
    ('0' as int + d) as char
  }

  /** The decimal numeral JavaScript prints for a non-negative integer. */
  function NatToDecimal(n: nat): (r: string)
    ensures |r| >= 1
    ensures forall i :: 0 <= i < |r| ==> IsDigit(r[i])
    ensures r[0] == '0' ==> r == "0"
  {
    if n < 10 then [DigitChar(n)] else NatToDecimal(n / 10) + [DigitChar(n % 10)]
  }

  /** The value of a string of decimal digits. */
  function DecimalValue(s: string): nat
    requires forall i :: 0 <= i < |s| ==> IsDigit(s[i])
  {
    if s == [] then 0
    else
      assert IsDigit(s[|s| - 1]);
      DecimalValue(s[..|s| - 1]) * 10 + (s[|s| - 1] as int - '0' as int)
  }

  lemma {:induction false} DecimalRoundTrip(n: nat)
    ensures DecimalValue(NatToDecimal(n)) == n
  {
    if n >= 10 {
      var r := NatToDecimal(n);
      assert r[..|r| - 1] == NatToDecimal(n / 10);
      DecimalRoundTrip(n / 10);
    }
  }

  /** `String(v)`. An array prints its elements joined by commas, with
      `null` and `undefined` elements printed as empty strings. */
  function ToJsString(v: JsValue): string {
    match v
    case Undefined => "undefined"
    case Null => "null"
    case Bool(b) => if b then "true" else "false"
    case Number(n) => if n < 0 then "-" + NatToDecimal(-n) else NatToDecimal(n)
    case Str(s) => s
    case Array(elems) =>
      Join(seq(|elems|, i requires 0 <= i < |elems| =>
             if elems[i].Undefined? || elems[i].Null? then "" else ToJsString(elems[i])), ',')
    case Object => "[object Object]"
  }

  /** A JavaScript number as this model keeps it: an integer, or `NaN`. */
  datatype Numeric = NaN | Finite(n: int)

  /** The longest prefix of `s` made of decimal digits. */
  function LeadingDigits(s: string): (d: string)
    ensures |d| <= |s| && d == s[..|d|]
    ensures forall i :: 0 <= i < |d| ==> IsDigit(d[i])
    ensures |d| < |s| ==> !IsDigit(s[|d|])
  {
    if s != [] && IsDigit(s[0]) then [s[0]] + LeadingDigits(s[1..]) else []
  }

  /** `parseFloat(v)` on integer syntax: `String(v)` without its leading
      whitespace, an optional sign, then the longest run of digits; `NaN`
      when there is no digit. */
  function ParseFloat(v: JsValue): Numeric {
    var t := TrimStart(ToJsString(v));
    var signed := t != [] && (t[0] == '-' || t[0] == '+');
    var d := LeadingDigits(if signed then t[1..] else t);
    if d == [] then NaN
    else if signed && t[0] == '-' then Finite(-(DecimalValue(d) as int))
    else Finite(DecimalValue(d))
  }

  lemma {:induction false} LeadingDigitsOfDigits(s: string)
    requires forall i :: 0 <= i < |s| ==> IsDigit(s[i])
    ensures LeadingDigits(s) == s
  {
    if s != [] {
      LeadingDigitsOfDigits(s[1..]);
    }
  }

  /** `parseFloat` reads back every number it is given. */
  lemma {:induction false} ParseFloatOfNumber(n: int)
    ensures ParseFloat(Number(n)) == Finite(n)
  {
    var m: nat := if n < 0 then -n else n;
    var digits := NatToDecimal(m);
    var text := ToJsString(Number(n));
    assert text == if n < 0 then "-" + digits else digits;
    assert text[0] == '-' || IsDigit(text[0]);
    TrimStartAt(text, 0);
    assert text[0..] == text;
    LeadingDigitsOfDigits(digits);
    DecimalRoundTrip(m);
    if n < 0 {
      assert text[1..] == digits;
    }
  }

  /** The modelled `ParseFloat` reads the integer part only: a run of digits
      followed by `.` and anything reads as those digits. JavaScript's
      `parseFloat` keeps the fraction, which the handler then rounds; this
      model does not read fractions. */
  lemma ParseFloatStopsAtPoint(d: string, rest: string)
    requires d != [] && forall i :: 0 <= i < |d| ==> IsDigit(d[i])
    ensures ParseFloat(Str(d + "." + rest)) == Finite(DecimalValue(d))
  {
    var t := d + ("." + rest);
    assert d + "." + rest == t;
    assert t[0] == d[0];
    LeadingDigitsStop(d, "." + rest);
    ParseFloatOfUnsigned(t);
  }

  /** Text that starts with a digit reads as its leading digits. */
  lemma ParseFloatOfUnsigned(t: string)
    requires t != [] && IsDigit(t[0])
    ensures ParseFloat(Str(t)) == Finite(DecimalValue(LeadingDigits(t)))
  {
    assert ToJsString(Str(t)) == t;
    assert !IsJsWhitespace(t[0]);
    assert TrimStart(t) == t;
    assert t[0] != '-' && t[0] != '+';
    assert LeadingDigits(t) != [];
  }

  /** The digits of `s` are read up to the first character that is not a
      digit. */
  lemma {:induction false} LeadingDigitsStop(d: string, rest: string)
    requires forall i :: 0 <= i < |d| ==> IsDigit(d[i])
    requires rest != [] && !IsDigit(rest[0])
    ensures LeadingDigits(d + rest) == d
  {
    if d != [] {
      assert (d + rest)[1..] == d[1..] + rest;
      LeadingDigitsStop(d[1..], rest);
    } else {
      assert d + rest == rest;
    }
  }

  /** A recipe energy of `'250.4'` reads as 250. */
  lemma ParseFloatOfEnergyText()
    ensures ParseFloat(Str("250.4")) == Finite(250)
  {
    ParseFloatStopsAtPoint("250", "4");
    assert "250" + "." + "4" == "250.4";
    assert DecimalValue("250") == 250 by {
      assert "250"[..2] == "25" && "25"[..1] == "2" && "2"[..0] == "";
    }
  }

  /** `parseFloat("0")`, the default of the recipe's numeric fields. */
  lemma ParseFloatOfZeroText()
    ensures ParseFloat(Str("0")) == Finite(0)
  {
    ParseFloatOfNumber(0);
    assert ToJsString(Number(0)) == "0";
  }
}
