/**
  `encodeURIComponent` as section 19.2.6.5 of ECMA-262 defines it: characters
  outside the unreserved set are written as `%XX` escapes of their UTF-8
  bytes (UTF-8 as section 3 of RFC 3629 lays it out). Decoding the escapes
  back yields exactly the UTF-8 bytes of the input.
 */
module UriComponent {

  /** Characters `encodeURIComponent` leaves alone. */
  predicate Unreserved(c: char) {
    || 'A' <= c <= 'Z' || 'a' <= c <= 'z' || '0' <= c <= '9'
    || c == '-' || c == '_' || c == '.' || c == '!' || c == '~' || c == '*' || c == '\'' || c == '(' || c == ')'
  }

  predicate IsUpperHex(c: char) {
    '0' <= c <= '9' || 'A' <= c <= 'F'
  }

  /** Characters that may appear in an encoded component. */
  predicate EncodedChar(c: char) {
    Unreserved(c) || c == '%'
  }

  predicate IsByte(b: int) {
    0 <= b < 256
  }

  function HexDigit(n: nat): (c: char)
    requires n < 16
    ensures IsUpperHex(c)
  {
    if n < 10 then ('0' as int + n) as char else ('A' as int + n - 10) as char
  }

  function HexValue(c: char): (n: nat)
    requires IsUpperHex(c)
    ensures n < 16 && HexDigit(n) == c
  {
    if c <= '9' then c as int - '0' as int else c as int - 'A' as int + 10
  }

  /** UTF-8 bytes of one Unicode scalar value. */
  function Utf8(c: char): (bytes: seq<int>)
    ensures 1 <= |bytes| <= 4
    ensures forall k :: 0 <= k < |bytes| ==> IsByte(bytes[k])
    ensures |bytes| == 1 <==> c as int < 0x80
  {
    var cp := c as int;
    if cp < 0x80 then [cp]
    else if cp < 0x800 then [0xC0 + cp / 0x40, 0x80 + cp % 0x40]
    else if cp < 0x1_0000 then [0xE0 + cp / 0x1000, 0x80 + (cp / 0x40) % 0x40, 0x80 + cp % 0x40]
    else [0xF0 + cp / 0x4_0000, 0x80 + (cp / 0x1000) % 0x40, 0x80 + (cp / 0x40) % 0x40, 0x80 + cp % 0x40]
  }

  /** UTF-8 bytes of a whole string: the reference the encoding is checked against. */
  function Utf8String(s: string): seq<int> {
    if s == [] then [] else Utf8(s[0]) + Utf8String(s[1..])
  }

  /** `%XX` for every byte, upper-case hexadecimal. */
  function PercentBytes(bytes: seq<int>): (t: string)
    requires forall k :: 0 <= k < |bytes| ==> IsByte(bytes[k])
    ensures |t| == 3 * |bytes|
    ensures forall k :: 0 <= k < |t| ==> EncodedChar(t[k])
  {
    if bytes == [] then []
    else
      var b := bytes[0];
      assert IsByte(b) && b / 16 < 16;
      ['%', HexDigit(b / 16), HexDigit(b % 16)] + PercentBytes(bytes[1..])
  }

  function EncodeChar(c: char): (t: string)
    ensures forall k :: 0 <= k < |t| ==> EncodedChar(t[k])
  {
    if Unreserved(c) then [c] else PercentBytes(Utf8(c))
  }

  /** `encodeURIComponent(s)`: only unreserved characters and `%` escapes remain. */
  function EncodeUriComponent(s: string): (t: string)
    ensures forall k :: 0 <= k < |t| ==> EncodedChar(t[k])
    ensures (forall k :: 0 <= k < |s| ==> Unreserved(s[k])) ==> t == s
    ensures |s| <= |t|
  {
    if s == [] then [] else EncodeChar(s[0]) + EncodeUriComponent(s[1..])
  }

  /** Reads `%XX` escapes back into bytes; any other character stands for its own code. */
  function PercentDecode(t: string): seq<int> {
    if t == [] then []
    else if |t| >= 3 && t[0] == '%' && IsUpperHex(t[1]) && IsUpperHex(t[2]) then
      [HexValue(t[1]) * 16 + HexValue(t[2])] + PercentDecode(t[3..])
    else [t[0] as int] + PercentDecode(t[1..])
  }

  lemma {:induction false} DecodePercentBytes(bytes: seq<int>, rest: string)
    requires forall k :: 0 <= k < |bytes| ==> IsByte(bytes[k])
    ensures PercentDecode(PercentBytes(bytes) + rest) == bytes + PercentDecode(rest)
  {
    if bytes != [] {
      var b := bytes[0];
      assert IsByte(b) && b / 16 < 16;
      var t := PercentBytes(bytes) + rest;
      assert t[..3] == ['%', HexDigit(b / 16), HexDigit(b % 16)];
      assert t[3..] == PercentBytes(bytes[1..]) + rest;
      assert t[0] == '%' && t[1] == HexDigit(b / 16) && t[2] == HexDigit(b % 16);
      assert HexValue(t[1]) * 16 + HexValue(t[2]) == b;
      assert PercentDecode(t) == [b] + PercentDecode(t[3..]);
      DecodePercentBytes(bytes[1..], rest);
      assert bytes == [b] + bytes[1..];
      assert [b] + (bytes[1..] + PercentDecode(rest)) == bytes + PercentDecode(rest);
    } else {
      assert PercentBytes(bytes) + rest == rest;
    }
  }

  lemma DecodeEncodeChar(c: char, rest: string)
    ensures PercentDecode(EncodeChar(c) + rest) == Utf8(c) + PercentDecode(rest)
  {
    if Unreserved(c) {
      assert (EncodeChar(c) + rest)[1..] == rest;
    } else {
      DecodePercentBytes(Utf8(c), rest);
    }
  }

  /** Decoding the escapes of `encodeURIComponent(s)` gives back the UTF-8 bytes of `s`. */
  lemma {:induction false} DecodeEncode(s: string)
    ensures PercentDecode(EncodeUriComponent(s)) == Utf8String(s)
  {
    if s != [] {
      DecodeEncodeChar(s[0], EncodeUriComponent(s[1..]));
      DecodeEncode(s[1..]);
    }
  }
}
