/**
  The JavaScript string primitives the pages rely on: the `\s` class of
  regular expressions (which is also what `String.prototype.trim` strips),
  `trim`, the UTF-16 `length`, `toUpperCase` restricted to ASCII, and
  `includes`.
 */
module JsText {

  /** JavaScript WhiteSpace and LineTerminator code points: the `\s` class. */
  predicate IsJsSpace(c: char) {
    || c == '\t' || c == '\n' || c == '\U{000B}' || c == '\U{000C}' || c == '\r' || c == ' '
    || c == '\U{00A0}' || c == '\U{1680}' || ('\U{2000}' <= c <= '\U{200A}')
    || c == '\U{2028}' || c == '\U{2029}' || c == '\U{202F}' || c == '\U{205F}'
    || c == '\U{3000}' || c == '\U{FEFF}'
  }

  predicate AllSpace(s: string) {
    forall k :: 0 <= k < |s| ==> IsJsSpace(s[k])
  }

  /** Drops leading white space: the result is the longest suffix not starting with it. */
  function TrimStart(s: string): (r: string)
    ensures |r| <= |s| && r == s[|s| - |r|..]
    ensures AllSpace(s[..|s| - |r|])
    ensures r != [] ==> !IsJsSpace(r[0])
  {
    if s != [] && IsJsSpace(s[0]) then
      var r := TrimStart(s[1..]);
      assert s[1..][..|s| - 1 - |r|] == s[1..|s| - |r|];
      r
    else s
  }

  /** Drops trailing white space: the result is the longest prefix not ending with it. */
  function TrimEnd(s: string): (r: string)
    ensures |r| <= |s| && r == s[..|r|]
    ensures AllSpace(s[|r|..])
    ensures r != [] ==> !IsJsSpace(r[|r| - 1])
  {
    if s != [] && IsJsSpace(s[|s| - 1]) then
      var init := s[..|s| - 1];
      var r := TrimEnd(init);
      assert r == s[..|r|];
      assert s[|r|..] == init[|r|..] + [s[|s| - 1]];
      r
    else s
  }

  /** `s.trim()`: a contiguous slice of `s` with white space only outside it and none at its ends. */
  function Trim(s: string): (r: string)
    ensures exists i, j :: 0 <= i <= j <= |s| && r == s[i..j] && AllSpace(s[..i]) && AllSpace(s[j..])
    ensures r != [] ==> !IsJsSpace(r[0]) && !IsJsSpace(r[|r| - 1])
  {
    var t := TrimStart(s);
    var r := TrimEnd(t);
    TrimBounds(s, t, r);
    r
  }

  /** Where the two trims cut: a white-space prefix of `s` is cut to give `t`, then a white-space suffix of `t` to give `r`. */
  lemma TrimBounds(s: string, t: string, r: string)
    requires |t| <= |s| && t == s[|s| - |t|..] && AllSpace(s[..|s| - |t|])
    requires |r| <= |t| && r == t[..|r|] && AllSpace(t[|r|..])
    ensures var i := |s| - |t|;
            0 <= i <= i + |r| <= |s| && r == s[i..i + |r|] && AllSpace(s[..i]) && AllSpace(s[i + |r|..])
  {
    var i := |s| - |t|;
    assert s[i + |r|..] == t[|r|..];
  }

  /** Trimming twice changes nothing more than trimming once. */
  lemma TrimIdempotent(s: string)
    ensures Trim(Trim(s)) == Trim(s)
  {
    var r := Trim(s);
    if r != [] {
      assert TrimStart(r) == r;
      assert TrimEnd(r) == r;
    }
  }

  /** A string made only of white space trims to the empty string. */
  lemma TrimOfSpace(s: string)
    requires AllSpace(s)
    ensures Trim(s) == ""
  {
    var i, j :| 0 <= i <= j <= |s| && Trim(s) == s[i..j] && AllSpace(s[..i]) && AllSpace(s[j..]);
    assert j <= i || IsJsSpace(s[i]);
  }

  /**
    UTF-16 code units of one Unicode scalar value (section 6.1.4 of
    ECMA-262): itself inside the Basic Multilingual Plane, otherwise a
    high surrogate followed by a low surrogate.
   */
  function Utf16Units(c: char): (units: seq<int>)
    ensures forall k :: 0 <= k < |units| ==> 0 <= units[k] < 0x1_0000
    ensures |units| == 1 <==> c as int < 0x1_0000
    ensures |units| == 2 <==> c as int >= 0x1_0000
    ensures |units| == 2 ==> 0xD800 <= units[0] < 0xDC00 && 0xDC00 <= units[1] < 0xE000
  {
    var cp := c as int;
    if cp < 0x1_0000 then [cp]
    else
      var v := cp - 0x1_0000;
      [0xD800 + v / 0x400, 0xDC00 + v % 0x400]
  }

  /** The surrogate pair decodes back to the character it encodes. */
  lemma Utf16UnitsDecode(c: char)
    ensures var u := Utf16Units(c);
            if |u| == 1 then u[0] == c as int
            else 0x1_0000 + (u[0] - 0xD800) * 0x400 + (u[1] - 0xDC00) == c as int
  {
  }

  /** UTF-16 code units of a whole string: the reference `length` is checked against. */
  function Utf16String(s: string): seq<int> {
    if s == [] then [] else Utf16Units(s[0]) + Utf16String(s[1..])
  }

  /** Number of UTF-16 code units: what JavaScript's `length` counts. */
  function Utf16Length(s: string): (n: nat)
    ensures n == |Utf16String(s)|
    ensures |s| <= n <= 2 * |s|
  {
    if s == [] then 0
    else (if s[0] as int >= 0x1_0000 then 2 else 1) + Utf16Length(s[1..])
  }

  /** For text inside the Basic Multilingual Plane the UTF-16 length is the character count. */
  lemma {:induction false} Utf16LengthOfBmp(s: string)
    requires forall k :: 0 <= k < |s| ==> s[k] as int < 0x1_0000
    ensures Utf16Length(s) == |s|
  {
    if s != [] {
      Utf16LengthOfBmp(s[1..]);
    }
  }

  /** Each character outside the Basic Multilingual Plane counts twice. */
  lemma {:induction false} Utf16LengthOfAstral(s: string)
    requires forall k :: 0 <= k < |s| ==> s[k] as int >= 0x1_0000
    ensures Utf16Length(s) == 2 * |s|
  {
    if s != [] {
      Utf16LengthOfAstral(s[1..]);
    }
  }

  /** `toUpperCase` on one character, for the ASCII letters only. */
  function AsciiUpperChar(c: char): (u: char)
    ensures !('a' <= u <= 'z')
    ensures !('a' <= c <= 'z') ==> u == c
  {
    if 'a' <= c <= 'z' then (c as int - 32) as char else c
  }

  function AsciiUpper(s: string): (u: string)
    ensures |u| == |s|
    ensures forall k :: 0 <= k < |s| ==> u[k] == AsciiUpperChar(s[k])
  {
    if s == [] then [] else [AsciiUpperChar(s[0])] + AsciiUpper(s[1..])
  }

  /** `s.indexOf(c)` for a `c` that occurs: the position of its first occurrence. */
  function IndexOf(s: string, c: char): (i: nat)
    requires c in s
    ensures i < |s| && s[i] == c
    ensures forall k :: 0 <= k < i ==> s[k] != c
  {
    if s[0] == c then 0 else 1 + IndexOf(s[1..], c)
  }

  /** The first `c` in `s` is the one at `j` when `c` does not occur before it. */
  lemma IndexOfIs(s: string, c: char, j: nat)
    requires j < |s| && s[j] == c && c !in s[..j]
    ensures IndexOf(s, c) == j
  {
    assert forall k :: 0 <= k < j ==> s[..j][k] == s[k];
  }

  /** `pat` occurs in `s` starting at index `i`. */
  ghost predicate OccursAt(s: string, pat: string, i: int) {
    0 <= i && i + |pat| <= |s| && s[i..i + |pat|] == pat
  }

  /** Away from index 0, occurrences in `s` are the occurrences in `s[1..]` shifted by one. */
  lemma OccursInTail(s: string, pat: string)
    requires |s| >= 1 && !OccursAt(s, pat, 0)
    ensures (exists i :: OccursAt(s, pat, i)) <==> (exists i :: OccursAt(s[1..], pat, i))
  {
    var t := s[1..];
    forall i | OccursAt(s, pat, i)
      ensures OccursAt(t, pat, i - 1)
    {
      assert t[i - 1..i - 1 + |pat|] == s[i..i + |pat|];
    }
    forall i | OccursAt(t, pat, i)
      ensures OccursAt(s, pat, i + 1)
    {
      assert t[i..i + |pat|] == s[i + 1..i + 1 + |pat|];
    }
  }

  /** `s.includes(pat)`, searched left to right. */
  function Includes(s: string, pat: string): (b: bool)
    ensures b <==> exists i :: OccursAt(s, pat, i)
    decreases |s|
  {
    if |s| < |pat| then false
    else if s[..|pat|] == pat then
      assert OccursAt(s, pat, 0);
      true
    else
      OccursInTail(s, pat);
      Includes(s[1..], pat)
  }
}
