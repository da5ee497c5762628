/**
 * The loosely typed values found in request dictionaries, with the two Python
 * behaviours the validators rely on: truthiness and `float(...)` conversion.
 */
module Values {
  import opened Wrappers

  /**
   * A value read from a request or cache dictionary. `Collection` stands for a
   * list or dict of the given length; `Instant` for a datetime object, in
   * seconds since the epoch.
   */
  datatype Value =
    | Number(x: real)
    | Text(s: string)
    | Flag(b: bool)
    | Null
    | Collection(size: nat)
    | Instant(seconds: real)

  /** Python truthiness: zero, the empty string, False, None and empty collections are false. */
  predicate Truthy(v: Value) {
    match v
    case Number(x) => x != 0.0
    case Text(s) => s != ""
    case Flag(b) => b
    case Null => false
    case Collection(n) => n > 0
    case Instant(_) => true
  }

  /** `d.get(key, default)`. */
  function Get(d: map<string, Value>, key: string, default: Value): (v: Value)
    ensures key in d ==> v == d[key]
    ensures key !in d ==> v == default
  {
    if key in d then d[key] else default
  }

  predicate IsDigit(c: char) {
    '0' <= c <= '9'
  }

  predicate AllDigits(s: string) {
    forall i :: 0 <= i < |s| ==> IsDigit(s[i])
  }

  function DigitValue(c: char): (d: nat)
    requires IsDigit(c)
    ensures d < 10
  {
    c as int - '0' as int
  }

  /** The value of a string of decimal digits, most significant first. */
  function DigitsValue(s: string): nat
    requires AllDigits(s)
  {
    if |s| == 0 then 0 else DigitsValue(s[..|s| - 1]) * 10 + DigitValue(s[|s| - 1])
  }

  /** The value of the digits after a decimal point: 0.d1 d2 d3 ... */
  function FractionValue(s: string): (f: real)
    requires AllDigits(s)
    ensures 0.0 <= f <= 1.0
  {
    if |s| == 0 then 0.0 else (DigitValue(s[0]) as real + FractionValue(s[1..])) / 10.0
  }

  /** The index of the first '.', or |s| when there is none. */
  function DotIndex(s: string): (k: nat)
    ensures k <= |s|
    ensures k < |s| ==> s[k] == '.'
    ensures forall i :: 0 <= i < k ==> s[i] != '.'
  {
    if |s| == 0 then 0 else if s[0] == '.' then 0 else 1 + DotIndex(s[1..])
  }

  /** An unsigned decimal: digits, optionally a point and more digits, at least one digit. */
  function ParseUnsigned(s: string): (r: Option<real>)
    ensures r.Some? ==> r.value >= 0.0
  {
    var k := DotIndex(s);
    var whole := s[..k];
    var fraction := if k < |s| then s[k + 1..] else "";
    if AllDigits(whole) && AllDigits(fraction) && |whole| + |fraction| > 0 then
      Some(DigitsValue(whole) as real + FractionValue(fraction))
    else None
  }

  /**
   * `float(text)` for plain decimal text with an optional sign, such as
   * "180", "-2.5", "+.5" or "7.".
   */
  function ParseDecimal(s: string): (r: Option<real>)
    ensures |s| == 0 ==> r.None?
  {
    if |s| > 0 && s[0] == '-' then
      match ParseUnsigned(s[1..])
      case Some(x) => Some(-x)
      case None => None
    else if |s| > 0 && s[0] == '+' then ParseUnsigned(s[1..])
    else ParseUnsigned(s)
  }

  /**
   * `float(v)`: numbers as they are, booleans as 1.0 and 0.0, decimal text
   * parsed, and a failure (ValueError or TypeError) for everything else.
   */
  function ToFloat(v: Value): (r: Option<real>)
    ensures v.Number? ==> r == Some(v.x)
    ensures v.Flag? ==> r == Some(if v.b then 1.0 else 0.0)
    ensures v.Null? || v.Collection? || v.Instant? ==> r.None?
  {
    match v
    case Number(x) => Some(x)
    case Flag(b) => Some(if b then 1.0 else 0.0)
    case Text(s) => ParseDecimal(s)
    case _ => None
  }

  function DigitChar(d: nat): (c: char)
    requires d < 10
    ensures IsDigit(c) && DigitValue(c) == d
  {
    ('0' as int + d) as char
  }

  /** The decimal text of a natural number, as `str(n)` writes it. */
  function NatText(n: nat): (s: string)
    ensures |s| > 0 && AllDigits(s)
    ensures forall i :: 0 <= i < |s| ==> s[i] != '.'
  {
    if n < 10 then [DigitChar(n)] else NatText(n / 10) + [DigitChar(n % 10)]
  }

  lemma {:induction false} NatTextValue(n: nat)
    ensures DigitsValue(NatText(n)) == n
  {
    var s := NatText(n);
    if n >= 10 {
      NatTextValue(n / 10);
      assert s[..|s| - 1] == NatText(n / 10);
    }
  }

  /** Parsing the text of a natural number gives the number back. */
  lemma NatTextRoundTrip(n: nat)
    ensures ParseDecimal(NatText(n)) == Some(n as real)
    ensures ToFloat(Text(NatText(n))) == Some(n as real)
  {
    var s := NatText(n);
    NatTextValue(n);
    assert DotIndex(s) == |s|;
    assert s[..|s|] == s;
  }

  /** A minus sign negates the parsed number. */
  lemma NegatedNatText(n: nat)
    ensures ParseDecimal("-" + NatText(n)) == Some(-(n as real))
  {
    NatTextRoundTrip(n);
    assert ("-" + NatText(n))[1..] == NatText(n);
  }
}
