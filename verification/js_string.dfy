/** The few JavaScript string primitives the wallet code relies on:
    `String.prototype.trim`, `toLowerCase`, `slice` and `includes`. */
module JsString {

  /** The characters `trim` removes: ECMAScript WhiteSpace and LineTerminator. */
  predicate IsWhitespace(c: char) {
    || c == ' ' || c == '\t' || c == '\n' || c == '\r'
    || c == '\U{000B}' || c == '\U{000C}' || c == '\U{00A0}' || c == '\U{1680}'
    || ('\U{2000}' <= c <= '\U{200A}')
    || c == '\U{2028}' || c == '\U{2029}' || c == '\U{202F}' || c == '\U{205F}'
    || c == '\U{3000}' || c == '\U{FEFF}'
  }

  /** A string that is empty after trimming, the code's `!s.trim()`. */
  predicate IsBlank(s: string) {
    forall i :: 0 <= i < |s| ==> IsWhitespace(s[i])
  }

  /** `trimStart`: drops leading whitespace. */
  function TrimStart(s: string): (r: string)
    ensures |r| <= |s|
  {
    if s == [] || !IsWhitespace(s[0]) then s else TrimStart(s[1..])
  }

  /** `trimEnd`: drops trailing whitespace. */
  function TrimEnd(s: string): (r: string)
    ensures |r| <= |s|
  {
    if s == [] || !IsWhitespace(s[|s| - 1]) then s else TrimEnd(s[..|s| - 1])
  }

  /** `trimStart` keeps a suffix that does not start with whitespace, and
      what it drops is all whitespace. */
  lemma {:induction false} TrimStartShape(s: string)
    ensures var r := TrimStart(s);
      && r == s[|s| - |r|..]
      && (r == [] || !IsWhitespace(r[0]))
      && IsBlank(s[..|s| - |r|])
  {
    if s != [] && IsWhitespace(s[0]) {
      var t := s[1..];
      TrimStartShape(t);
      var r := TrimStart(t);
      assert TrimStart(s) == r;
      assert s[..|s| - |r|] == [s[0]] + t[..|t| - |r|];
    }
  }

  /** `trimEnd` keeps a prefix that does not end with whitespace, what it
      drops is all whitespace, and it keeps something of a string that does
      not start with whitespace. */
  lemma {:induction false} TrimEndShape(s: string)
    ensures var r := TrimEnd(s);
      && r == s[..|r|]
      && (r == [] || !IsWhitespace(r[|r| - 1]))
      && IsBlank(s[|r|..])
      && (s != [] && !IsWhitespace(s[0]) ==> r != [])
  {
    if s != [] && IsWhitespace(s[|s| - 1]) {
      var t := s[..|s| - 1];
      TrimEndShape(t);
      var r := TrimEnd(t);
      assert TrimEnd(s) == r;
      assert s[|r|..] == t[|r|..] + [s[|s| - 1]];
    }
  }

  /** `s.trim()`. */
  function Trim(s: string): string {
    TrimEnd(TrimStart(s))
  }

  /** `!s.trim()` holds exactly for blank strings. */
  lemma TrimEmptyIffBlank(s: string)
    ensures Trim(s) == [] <==> IsBlank(s)
  {
    var t := TrimStart(s);
    TrimStartShape(s);
    TrimEndShape(t);
    if TrimEnd(t) == [] {
      assert t == [];
      assert s[..|s|] == s;
    }
  }

  /** Trimming never lengthens a string, and a non-empty trimmed string
      neither starts nor ends with whitespace. */
  lemma TrimProperties(s: string)
    ensures |Trim(s)| <= |s|
    ensures Trim(s) != [] ==> !IsWhitespace(Trim(s)[0]) && !IsWhitespace(Trim(s)[|Trim(s)| - 1])
  {
    var t := TrimStart(s);
    TrimStartShape(s);
    TrimEndShape(t);
    var r := TrimEnd(t);
    if r != [] {
      assert r[0] == t[0];
    }
  }

  /** A character outside the Basic Multilingual Plane, which UTF-16 stores
      as a surrogate pair. */
  predicate IsAstral(c: char) {
    c > '\U{FFFF}'
  }

  /** `s.length`: JavaScript counts UTF-16 code units, so an astral character
      counts twice. */
  function Utf16Length(s: string): (n: nat)
    ensures |s| <= n <= 2 * |s|
  {
    if s == [] then 0 else (if IsAstral(s[0]) then 2 else 1) + Utf16Length(s[1..])
  }

  /** `s.length` equals the number of characters exactly when no character is
      astral. */
  lemma {:induction false} Utf16LengthIsCount(s: string)
    ensures Utf16Length(s) == |s| <==> forall i :: 0 <= i < |s| ==> !IsAstral(s[i])
  {
    if s != [] {
      Utf16LengthIsCount(s[1..]);
      assert forall i :: 1 <= i < |s| ==> s[i] == s[1..][i - 1];
    }
  }

  /** ASCII upper-case letters mapped to lower case, as `toLowerCase` does for
      the hexadecimal addresses it is used on. */
  function LowerChar(c: char): char {
    if 'A' <= c <= 'Z' then (c as int + 32) as char else c
  }

  function ToLower(s: string): (r: string)
    ensures |r| == |s|
    ensures forall i :: 0 <= i < |s| ==> r[i] == LowerChar(s[i])
  {
    if s == [] then [] else [LowerChar(s[0])] + ToLower(s[1..])
  }

  /** The offset `slice` uses for a start or end argument: negative values
      count from the end, and the result is clamped to `[0, len]`. */
  function SliceIndex(k: int, len: nat): (r: nat)
    ensures r <= len
  {
    if k < 0 then (if len + k < 0 then 0 else len + k)
    else if k < len then k else len
  }

  /** `s.slice(start, end)`. */
  function Slice(s: string, start: int, end: int): string {
    var from, to := SliceIndex(start, |s|), SliceIndex(end, |s|);
    if from < to then s[from..to] else []
  }

  /** `s.slice(start)`. */
  function SliceFrom(s: string, start: int): string {
    s[SliceIndex(start, |s|)..]
  }

  /** `s.includes(sub)`: `sub` occurs in `s` at some offset. */
  predicate Includes(s: string, sub: string) {
    (|sub| <= |s| && s[..|sub|] == sub) || (s != [] && Includes(s[1..], sub))
  }

  /** A string cannot include a piece that has a character the string lacks. */
  lemma {:induction false} MissingCharNotIncluded(s: string, sub: string, c: char)
    requires c in sub && c !in s
    ensures !Includes(s, sub)
  {
    if |sub| <= |s| {
      assert forall x :: x in s[..|sub|] ==> x in s;
    }
    if s != [] {
      MissingCharNotIncluded(s[1..], sub, c);
    }
  }
}
