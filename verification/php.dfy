/** PHP's loosely typed values as the plugin meets them (in a form submission or in
    the stored options array), and the PHP conversions the plugin relies on:
    `isset`, truthiness, string conversion, `intval` and `absint`. */
module Php {

  datatype Option<+T> = None | Some(value: T)

  /** A PHP scalar as it occurs in the plugin's data: `null`, an integer (the
      sanitiser stores its flags as 0 and 1) or a string (everything a form posts). */
  datatype Scalar = Null | Int(n: int) | Str(s: string)

  /** A PHP array with string keys and scalar values: one form group or one
      stored record. */
  type Record = map<string, Scalar>

  /** `$r[$key]`: a key that is absent reads as `null`. */
  function Lookup(r: Record, key: string): Scalar
  {
    if key in r then r[key] else Null
  }

  /** `isset($r[$key])`: the key is present and its value is not `null`. */
  predicate IsSet(r: Record, key: string)
  {
    key in r && r[key] != Null
  }

  /** PHP truthiness: `null`, `0`, `""` and `"0"` are false, everything else true. */
  predicate Truthy(v: Scalar)
  {
    match v
    case Null => false
    case Int(n) => n != 0
    case Str(s) => s != "" && s != "0"
  }

  predicate IsDigit(c: char)
  {
    '0' <= c <= '9'
  }

  predicate AllDigits(s: string)
  {
    forall i :: 0 <= i < |s| ==> IsDigit(s[i])
  }

  function DigitChar(d: nat): char
    requires d < 10
  {
    "0123456789"[d]
  }

  function DigitValue(c: char): nat
    requires IsDigit(c)
  {
    c as int - '0' as int
  }

  /** The decimal notation PHP prints for a non-negative integer. */
  function DecimalString(n: nat): (s: string)
    ensures |s| > 0 && AllDigits(s)
  {
    if n < 10 then [DigitChar(n)] else DecimalString(n / 10) + [DigitChar(n % 10)]
  }

  /** PHP's string conversion: `null` becomes `""`, an integer its decimal notation. */
  function ToStr(v: Scalar): string
  {
    match v
    case Null => ""
    case Int(n) => if n < 0 then "-" + DecimalString(-n) else DecimalString(n)
    case Str(s) => s
  }

  /** Loose comparison `$v == $word` of PHP 8 against a string that is not
      numeric (every word the plugin compares with is one): both sides are
      compared as strings. */
  predicate LooseEquals(v: Scalar, word: string)
  {
    ToStr(v) == word
  }

  /** Loose `in_array($v, $words)`. */
  predicate LooseInArray(v: Scalar, words: seq<string>)
  {
    exists i :: 0 <= i < |words| && LooseEquals(v, words[i])
  }

  predicate IsWhitespace(c: char)
  {
    c == ' ' || c == '\t' || c == '\n' || c == '\r' || c == '\U{B}' || c == '\U{C}'
  }

  function SkipWhitespace(s: string): string
  {
    if s != [] && IsWhitespace(s[0]) then SkipWhitespace(s[1..]) else s
  }

  /** The longest prefix of `s` made of decimal digits. */
  function LeadingDigits(s: string): (d: string)
    ensures AllDigits(d) && d <= s
  {
    if s != [] && IsDigit(s[0]) then [s[0]] + LeadingDigits(s[1..]) else []
  }

  /** The number a string of decimal digits denotes. */
  function DecimalValue(d: string): nat
    requires AllDigits(d)
  {
    if d == [] then 0 else DecimalValue(d[..|d| - 1]) * 10 + DigitValue(d[|d| - 1])
  }

  /** `intval` of a string: leading whitespace, an optional sign and the digits
      that follow; the rest of the string is ignored. */
  function ParseLeadingInt(s: string): int
  {
    var t := SkipWhitespace(s);
    if t != [] && t[0] == '-' then -(DecimalValue(LeadingDigits(t[1..])) as int)
    else if t != [] && t[0] == '+' then DecimalValue(LeadingDigits(t[1..]))
    else DecimalValue(LeadingDigits(t))
  }

  /** `intval($v)`, which is also the cast `(int)$v`. */
  function IntVal(v: Scalar): int
  {
    match v
    case Null => 0
    case Int(n) => n
    case Str(s) => ParseLeadingInt(s)
  }

  /** WordPress's `absint($v)`: `abs(intval($v))`. */
  function AbsInt(v: Scalar): (r: nat)
    ensures r == IntVal(v) || r == -IntVal(v)
  {
    var n := IntVal(v);
    if n < 0 then -n else n
  }

  lemma {:induction false} DecimalValueOfDecimalString(n: nat)
    ensures DecimalValue(DecimalString(n)) == n
  {
    if n >= 10 {
      var d := DecimalString(n);
      assert d[..|d| - 1] == DecimalString(n / 10);
      DecimalValueOfDecimalString(n / 10);
    }
  }

  lemma {:induction false} LeadingDigitsOfDigits(d: string)
    requires AllDigits(d)
    ensures LeadingDigits(d) == d
  {
    if d != [] {
      LeadingDigitsOfDigits(d[1..]);
    }
  }

  /** Reading back the decimal notation PHP prints for an integer gives that
      integer: a value echoed into a form field and posted again is unchanged. */
  lemma IntValOfToStr(n: int)
    ensures IntVal(Str(ToStr(Int(n)))) == n
  {
    var m: nat := if n < 0 then -n else n;
    var d := DecimalString(m);
    LeadingDigitsOfDigits(d);
    DecimalValueOfDecimalString(m);
    if n < 0 {
      var s := "-" + d;
      assert SkipWhitespace(s) == s;
      assert s[1..] == d;
    } else {
      assert IsDigit(d[0]);
      assert SkipWhitespace(d) == d;
    }
  }
}
