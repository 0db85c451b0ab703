/** PHP's `urlencode`, applied by the plugin to the WhatsApp text, the e-mail
    subject and the e-mail body. PHP strings are bytes; the texts are UTF-8, so a
    text is first encoded as UTF-8 and each byte then encoded on its own.
    `urldecode` is given too, as the inverse the encoding is checked against. */
module UrlEncoding {

  type Byte = b: int | 0 <= b < 256

  /** The UTF-8 encoding of one Unicode scalar value. */
  function Utf8Char(c: char): seq<Byte>
  {
    var cp := c as int;
    if cp < 0x80 then [cp]
    else if cp < 0x800 then [0xC0 + cp / 0x40, 0x80 + cp % 0x40]
    else if cp < 0x1_0000 then [0xE0 + cp / 0x1000, 0x80 + (cp / 0x40) % 0x40, 0x80 + cp % 0x40]
    else [0xF0 + cp / 0x4_0000, 0x80 + (cp / 0x1000) % 0x40, 0x80 + (cp / 0x40) % 0x40, 0x80 + cp % 0x40]
  }

  /** The bytes of a text held as UTF-8. */
  function Utf8(s: string): seq<Byte>
  {
    if s == [] then [] else Utf8Char(s[0]) + Utf8(s[1..])
  }

  /** The bytes `urlencode` leaves as they are: letters, digits, `-`, `_` and `.`. */
  predicate IsUnreserved(b: Byte)
  {
    ('a' as int <= b <= 'z' as int) || ('A' as int <= b <= 'Z' as int) ||
    ('0' as int <= b <= '9' as int) || b == '-' as int || b == '_' as int || b == '.' as int
  }

  /** An upper-case hexadecimal digit. */
  function HexDigit(d: nat): char
    requires d < 16
  {
    if d < 10 then ('0' as int + d) as char else ('A' as int + d - 10) as char
  }

  predicate IsHexChar(c: char)
  {
    ('0' <= c <= '9') || ('A' <= c <= 'F') || ('a' <= c <= 'f')
  }

  function HexValue(c: char): (d: nat)
    requires IsHexChar(c)
    ensures d < 16
  {
    if '0' <= c <= '9' then c as int - '0' as int
    else if 'A' <= c <= 'F' then c as int - 'A' as int + 10
    else c as int - 'a' as int + 10
  }

  /** How `urlencode` writes one byte: unchanged when unreserved, a space as `+`,
      anything else as `%` and two upper-case hexadecimal digits. */
  function EncodeByte(b: Byte): string
  {
    if IsUnreserved(b) then [b as char]
    else if b == ' ' as int then "+"
    else ['%', HexDigit(b / 16), HexDigit(b % 16)]
  }

  function PercentEncode(bs: seq<Byte>): string
  {
    if bs == [] then [] else EncodeByte(bs[0]) + PercentEncode(bs[1..])
  }

  /** `urlencode($s)`. */
  function UrlEncode(s: string): string
  {
    PercentEncode(Utf8(s))
  }

  /** The characters `urlencode` can produce. None of them ends or splits a
      query parameter: there is no `&`, `=`, `#`, `?` or space among them. */
  predicate IsQuerySafe(c: char)
  {
    ('a' <= c <= 'z') || ('A' <= c <= 'Z') || ('0' <= c <= '9') ||
    c == '-' || c == '_' || c == '.' || c == '+' || c == '%'
  }

  /** A string whose characters are all bytes, as every URL here is. */
  predicate IsByteString(s: string)
  {
    forall i :: 0 <= i < |s| ==> s[i] as int < 256
  }

  /** `urldecode($s)`: `+` is a space, `%` with two hexadecimal digits is that
      byte, and every other character stands for itself. */
  function UrlDecode(s: string): seq<Byte>
    requires IsByteString(s)
    decreases |s|
  {
    if s == [] then []
    else if s[0] == '+' then [' ' as int] + UrlDecode(s[1..])
    else if s[0] == '%' && |s| >= 3 && IsHexChar(s[1]) && IsHexChar(s[2]) then
      [HexValue(s[1]) * 16 + HexValue(s[2])] + UrlDecode(s[3..])
    else [s[0] as int] + UrlDecode(s[1..])
  }

  lemma EncodeByteIsQuerySafe(b: Byte)
    ensures forall i :: 0 <= i < |EncodeByte(b)| ==> IsQuerySafe(EncodeByte(b)[i])
  {
  }

  /** Every character `urlencode` produces is query-safe, whatever the text. */
  lemma {:induction false} PercentEncodeIsQuerySafe(bs: seq<Byte>)
    ensures forall i :: 0 <= i < |PercentEncode(bs)| ==> IsQuerySafe(PercentEncode(bs)[i])
  {
    if bs != [] {
      EncodeByteIsQuerySafe(bs[0]);
      PercentEncodeIsQuerySafe(bs[1..]);
    }
  }

  lemma UrlEncodeIsQuerySafe(s: string)
    ensures forall i :: 0 <= i < |UrlEncode(s)| ==> IsQuerySafe(UrlEncode(s)[i])
  {
    PercentEncodeIsQuerySafe(Utf8(s));
  }

  /** Decoding the encoding of one byte, followed by more text, gives the byte
      and then the decoding of the rest. */
  lemma DecodeEncodedByte(b: Byte, rest: string)
    requires IsByteString(rest)
    ensures IsByteString(EncodeByte(b) + rest)
    ensures UrlDecode(EncodeByte(b) + rest) == [b] + UrlDecode(rest)
  {
    var e := EncodeByte(b);
    var s := e + rest;
    EncodeByteIsQuerySafe(b);
    assert IsByteString(s);
    if IsUnreserved(b) {
      assert s[0] == b as char && s[1..] == rest;
    } else if b == ' ' as int {
      assert s[0] == '+' && s[1..] == rest;
    } else {
      assert s[0] == '%' && s[1] == HexDigit(b / 16) && s[2] == HexDigit(b % 16);
      assert HexValue(HexDigit(b / 16)) == b / 16;
      assert HexValue(HexDigit(b % 16)) == b % 16;
      assert s[3..] == rest;
    }
  }

  /** `urldecode` undoes `urlencode`: the receiving application gets back exactly
      the bytes that were encoded. */
  lemma {:induction false} PercentRoundTrip(bs: seq<Byte>)
    ensures IsByteString(PercentEncode(bs))
    ensures UrlDecode(PercentEncode(bs)) == bs
  {
    PercentEncodeIsQuerySafe(bs);
    if bs != [] {
      PercentRoundTrip(bs[1..]);
      DecodeEncodedByte(bs[0], PercentEncode(bs[1..]));
    }
  }

  lemma UrlRoundTrip(s: string)
    ensures IsByteString(UrlEncode(s))
    ensures UrlDecode(UrlEncode(s)) == Utf8(s)
  {
    PercentRoundTrip(Utf8(s));
  }
}
