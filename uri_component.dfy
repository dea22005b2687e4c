/**
 * `encodeURIComponent`: every character outside the unreserved set
 * `A-Z a-z 0-9 - _ . ! ~ * ' ( )` is written as the UTF-8 bytes of its code
 * point, each as `%` and two upper-case hexadecimal digits. A Dafny `char`
 * is a Unicode scalar value, so the lone-surrogate error of the JavaScript
 * function cannot arise.
 */
module UriComponent {
  import opened Text

  type Byte = b: int | 0 <= b < 256

  predicate IsUnreserved(c: char) {
    || IsUpper(c) || IsLower(c) || '0' <= c <= '9'
    || c == '-' || c == '_' || c == '.' || c == '!' || c == '~'
    || c == '*' || c == '\'' || c == '(' || c == ')'
  }

  /** The characters an encoded component can contain: it can never split a query string. */
  predicate IsUriSafe(c: char) {
    IsUnreserved(c) || c == '%'
  }

  predicate IsContinuation(b: Byte) { 0x80 <= b < 0xC0 }

  /** The code point that a UTF-8 sequence of one to four bytes stands for. */
  function Utf8CodePoint(bs: seq<Byte>): int
    requires 1 <= |bs| <= 4
  {
    var b := seq(|bs|, i requires 0 <= i < |bs| => bs[i] as int);
    match |bs|
    case 1 => b[0]
    case 2 => (b[0] - 0xC0) * 64 + (b[1] - 0x80)
    case 3 => (b[0] - 0xE0) * 4096 + (b[1] - 0x80) * 64 + (b[2] - 0x80)
    case 4 => (b[0] - 0xF0) * 262144 + (b[1] - 0x80) * 4096 + (b[2] - 0x80) * 64 + (b[3] - 0x80)
  }

  /** The UTF-8 encoding of one character. */
  function Utf8(c: char): (bs: seq<Byte>)
    ensures 1 <= |bs| <= 4
    ensures (|bs| == 1) <==> c as int < 0x80
    ensures (|bs| == 2) <==> 0x80 <= c as int < 0x800
    ensures (|bs| == 3) <==> 0x800 <= c as int < 0x10000
    ensures |bs| == 2 ==> 0xC0 <= bs[0] < 0xE0
    ensures |bs| == 3 ==> 0xE0 <= bs[0] < 0xF0
    ensures |bs| == 4 ==> 0xF0 <= bs[0] < 0xF8
    ensures forall i :: 1 <= i < |bs| ==> IsContinuation(bs[i])
    ensures Utf8CodePoint(bs) == c as int
  {
    var cp := c as int;
    if cp < 0x80 then [cp]
    else if cp < 0x800 then Utf8Two(cp)
    else if cp < 0x10000 then Utf8Three(cp)
    else Utf8Four(cp)
  }

  function Utf8Two(cp: int): (bs: seq<Byte>)
    requires 0x80 <= cp < 0x800
    ensures |bs| == 2 && 0xC0 <= bs[0] < 0xE0 && IsContinuation(bs[1])
    ensures Utf8CodePoint(bs) == cp
  {
    var hi, lo := cp / 64, cp % 64;
    assert cp == hi * 64 + lo;
    [0xC0 + hi, 0x80 + lo]
  }

  function Utf8Three(cp: int): (bs: seq<Byte>)
    requires 0x800 <= cp < 0x10000
    ensures |bs| == 3 && 0xE0 <= bs[0] < 0xF0 && IsContinuation(bs[1]) && IsContinuation(bs[2])
    ensures Utf8CodePoint(bs) == cp
  {
    var hi, r := cp / 4096, cp % 4096;
    var mid, lo := r / 64, r % 64;
    assert cp == hi * 4096 + r && r == mid * 64 + lo;
    [0xE0 + hi, 0x80 + mid, 0x80 + lo]
  }

  function Utf8Four(cp: int): (bs: seq<Byte>)
    requires 0x10000 <= cp < 0x110000
    ensures |bs| == 4 && 0xF0 <= bs[0] < 0xF8
    ensures IsContinuation(bs[1]) && IsContinuation(bs[2]) && IsContinuation(bs[3])
    ensures Utf8CodePoint(bs) == cp
  {
    var hi, r1 := cp / 262144, cp % 262144;
    var b1, r2 := r1 / 4096, r1 % 4096;
    var b2, lo := r2 / 64, r2 % 64;
    assert cp == hi * 262144 + r1 && r1 == b1 * 4096 + r2 && r2 == b2 * 64 + lo;
    [0xF0 + hi, 0x80 + b1, 0x80 + b2, 0x80 + lo]
  }

  function Utf8String(s: string): seq<Byte> {
    if |s| == 0 then [] else Utf8(s[0]) + Utf8String(s[1..])
  }

  /** Each byte as `%XY`. */
  function PercentBytes(bs: seq<Byte>): (r: string)
    ensures |r| == 3 * |bs|
    ensures forall i :: 0 <= i < |r| ==> r[i] == '%' || (IsHexDigit(r[i]) && !IsLower(r[i]))
  {
    if |bs| == 0 then ""
    else ['%', HexDigit(bs[0] / 16, true), HexDigit(bs[0] % 16, true)] + PercentBytes(bs[1..])
  }

  function EncodeChar(c: char): string {
    if IsUnreserved(c) then [c] else PercentBytes(Utf8(c))
  }

  /** `encodeURIComponent(s)`. */
  function EncodeUriComponent(s: string): (r: string)
    ensures forall i :: 0 <= i < |r| ==> IsUriSafe(r[i])
    ensures (forall i :: 0 <= i < |s| ==> IsUnreserved(s[i])) ==> r == s
  {
    if |s| == 0 then ""
    else EncodeChar(s[0]) + EncodeUriComponent(s[1..])
  }

  /** Reads `%XY` triples back as bytes; any other character stands for its own code. */
  function PercentDecode(t: string): seq<int>
    decreases |t|
  {
    if |t| == 0 then []
    else if |t| >= 3 && t[0] == '%' && IsHexDigit(t[1]) && IsHexDigit(t[2]) then
      [16 * HexValue(t[1]) + HexValue(t[2])] + PercentDecode(t[3..])
    else [t[0] as int] + PercentDecode(t[1..])
  }

  lemma {:induction false} PercentDecodeBytes(bs: seq<Byte>, rest: string)
    ensures PercentDecode(PercentBytes(bs) + rest) == bs + PercentDecode(rest)
  {
    if |bs| > 0 {
      var t := PercentBytes(bs) + rest;
      var h := HexDigit(bs[0] / 16, true);
      var l := HexDigit(bs[0] % 16, true);
      assert t == ['%', h, l] + (PercentBytes(bs[1..]) + rest);
      assert t[3..] == PercentBytes(bs[1..]) + rest;
      PercentDecodeBytes(bs[1..], rest);
      assert [bs[0]] + bs[1..] == bs;
    } else {
      assert PercentBytes(bs) + rest == rest;
    }
  }

  lemma PercentDecodeChar(c: char, rest: string)
    ensures PercentDecode(EncodeChar(c) + rest) == Utf8(c) + PercentDecode(rest)
  {
    if IsUnreserved(c) {
      assert ([c] + rest)[1..] == rest;
    } else {
      PercentDecodeBytes(Utf8(c), rest);
    }
  }

  /** Percent-decoding an encoded component gives back the UTF-8 bytes of the original. */
  lemma {:induction false} DecodeEncodeUriComponent(s: string)
    ensures PercentDecode(EncodeUriComponent(s)) == Utf8String(s)
  {
    if |s| > 0 {
      PercentDecodeChar(s[0], EncodeUriComponent(s[1..]));
      DecodeEncodeUriComponent(s[1..]);
    }
  }

  /** An encoded component never holds the query-string delimiters `&`, `=`, `?` or `#`. */
  lemma EncodedHasNoDelimiters(s: string)
    ensures '&' !in EncodeUriComponent(s) && '=' !in EncodeUriComponent(s)
    ensures '?' !in EncodeUriComponent(s) && '#' !in EncodeUriComponent(s)
  {
    var r := EncodeUriComponent(s);
    assert !IsUriSafe('&') && !IsUriSafe('=') && !IsUriSafe('?') && !IsUriSafe('#');
    assert forall i :: 0 <= i < |r| ==> IsUriSafe(r[i]);
  }
}
