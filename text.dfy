/**
 * String and sequence helpers shared by the client and the backend models.
 * Case conversion is modelled on ASCII letters only; each trim is stated
 * with the whitespace set of the runtime that performs it.
 */
module Text {
  import opened Wrappers

  predicate IsUpper(c: char) { 'A' <= c <= 'Z' }
  predicate IsLower(c: char) { 'a' <= c <= 'z' }
  predicate IsDigit(c: char) { '0' <= c <= '9' }

  function LowerChar(c: char): (r: char)
    ensures !IsUpper(r)
    ensures IsUpper(c) ==> IsLower(r)
    ensures !IsUpper(c) ==> r == c
  {
    if IsUpper(c) then (c as int - 'A' as int + 'a' as int) as char else c
  }

  /** `toLowerCase()` restricted to ASCII letters. */
  function Lower(s: string): (r: string)
    ensures |r| == |s|
    ensures forall i :: 0 <= i < |s| ==> r[i] == LowerChar(s[i])
  {
    if s == [] then [] else [LowerChar(s[0])] + Lower(s[1..])
  }

  predicate IsLowerCase(s: string) {
    forall i :: 0 <= i < |s| ==> !IsUpper(s[i])
  }

  /** Java's `equalsIgnoreCase`, on ASCII letters. */
  predicate EqualsIgnoreCase(a: string, b: string) {
    Lower(a) == Lower(b)
  }

  /** Whitespace as JavaScript's `String.prototype.trim` sees it. */
  predicate IsJsSpace(c: char) {
    ('\t' <= c <= '\r') || c == ' ' || c == '\U{00A0}' || c == '\U{1680}'
    || ('\U{2000}' <= c <= '\U{200A}') || c == '\U{2028}' || c == '\U{2029}'
    || c == '\U{202F}' || c == '\U{205F}' || c == '\U{3000}' || c == '\U{FEFF}'
  }

  /** Characters Java's `String.trim` removes: every code point up to U+0020. */
  predicate IsJavaTrimmed(c: char) { c <= ' ' }

  /** Java's `Character.isWhitespace`, used by `String.isBlank`. */
  predicate IsJavaWhitespace(c: char) {
    ('\t' <= c <= '\r') || ('\U{001C}' <= c <= ' ') || c == '\U{1680}'
    || ('\U{2000}' <= c <= '\U{2006}') || ('\U{2008}' <= c <= '\U{200A}')
    || c == '\U{2028}' || c == '\U{2029}' || c == '\U{205F}' || c == '\U{3000}'
  }

  /** The class `\s` of a Java regular expression. */
  predicate IsRegexSpace(c: char) {
    ('\t' <= c <= '\r') || c == ' '
  }

  function TrimStart(s: string, isSpace: char -> bool): (r: string)
    ensures |r| <= |s|
  {
    if s != [] && isSpace(s[0]) then TrimStart(s[1..], isSpace) else s
  }

  function TrimEnd(s: string, isSpace: char -> bool): (r: string)
    ensures |r| <= |s|
  {
    if s != [] && isSpace(s[|s| - 1]) then TrimEnd(s[..|s| - 1], isSpace) else s
  }

  /** Removes the leading and trailing characters that `isSpace` accepts. */
  function Trim(s: string, isSpace: char -> bool): (r: string)
    ensures |r| <= |s|
  {
    TrimEnd(TrimStart(s, isSpace), isSpace)
  }

  /** A string with no space character at either end is its own trim. */
  lemma TrimOfUnpadded(s: string, isSpace: char -> bool)
    requires s != [] ==> !isSpace(s[0]) && !isSpace(s[|s| - 1])
    ensures Trim(s, isSpace) == s
  {
  }

  /** Trimming leaves no space character at either end. */
  lemma {:induction false} TrimLeavesNoPadding(s: string, isSpace: char -> bool)
    ensures var r := Trim(s, isSpace);
      r != [] ==> !isSpace(r[0]) && !isSpace(r[|r| - 1])
  {
    TrimStartNoPadding(s, isSpace);
    TrimEndNoPadding(TrimStart(s, isSpace), isSpace);
  }

  lemma {:induction false} TrimStartNoPadding(s: string, isSpace: char -> bool)
    ensures var r := TrimStart(s, isSpace); r != [] ==> !isSpace(r[0]) && r[|r| - 1] == s[|s| - 1]
  {
    if s != [] && isSpace(s[0]) {
      TrimStartNoPadding(s[1..], isSpace);
    }
  }

  lemma {:induction false} TrimEndNoPadding(s: string, isSpace: char -> bool)
    requires s != [] ==> !isSpace(s[0])
    ensures var r := TrimEnd(s, isSpace); r != [] ==> !isSpace(r[0]) && !isSpace(r[|r| - 1])
  {
    if s != [] && isSpace(s[|s| - 1]) {
      TrimEndNoPadding(s[..|s| - 1], isSpace);
    }
  }

  function JsTrim(s: string): string { Trim(s, IsJsSpace) }
  function JavaTrim(s: string): string { Trim(s, IsJavaTrimmed) }

  /** Java's `String.isBlank`. */
  predicate IsBlank(s: string) {
    forall i :: 0 <= i < |s| ==> IsJavaWhitespace(s[i])
  }

  /** No element occurs twice. */
  predicate Distinct<T(==)>(s: seq<T>) {
    forall i, j :: 0 <= i < j < |s| ==> s[i] != s[j]
  }

  /**
   * JavaScript's `length`: the number of UTF-16 code units, two for each
   * character outside the Basic Multilingual Plane.
   */
  function Utf16Length(s: string): (n: nat)
    ensures |s| <= n <= 2 * |s|
    ensures (forall i :: 0 <= i < |s| ==> s[i] as int <= 0xFFFF) ==> n == |s|
  {
    if s == [] then 0 else (if s[0] as int > 0xFFFF then 2 else 1) + Utf16Length(s[1..])
  }

  /** `haystack` contains `needle` as a contiguous part. */
  predicate Contains(haystack: string, needle: string) {
    needle <= haystack || (haystack != [] && Contains(haystack[1..], needle))
  }

  /** SQL `LIKE` without an escape character: `%` matches any run of characters, `_` any one. */
  predicate LikeMatches(pattern: string, s: string)
    decreases |pattern| + |s|
  {
    if pattern == [] then s == []
    else if pattern[0] == '%' then LikeMatches(pattern[1..], s) || (s != [] && LikeMatches(pattern, s[1..]))
    else s != [] && (pattern[0] == '_' || pattern[0] == s[0]) && LikeMatches(pattern[1..], s[1..])
  }

  predicate NoWildcards(s: string) {
    forall i :: 0 <= i < |s| ==> s[i] != '%' && s[i] != '_'
  }

  /** A lone `%` matches everything. */
  lemma {:induction false} PercentMatchesAll(s: string)
    ensures LikeMatches("%", s)
  {
    if s != [] {
      PercentMatchesAll(s[1..]);
    }
  }

  /** A wildcard-free literal followed by `%` matches exactly the strings it begins. */
  lemma {:induction false} LiteralThenPercent(f: string, s: string)
    requires NoWildcards(f)
    ensures LikeMatches(f + "%", s) <==> f <= s
  {
    if f == [] {
      assert f + "%" == "%";
      PercentMatchesAll(s);
    } else {
      assert (f + "%")[1..] == f[1..] + "%";
      if s != [] {
        LiteralThenPercent(f[1..], s[1..]);
      }
    }
  }

  /** `%literal%` is containment when the literal has no wildcard. */
  lemma {:induction false} LikeIsContains(f: string, s: string)
    requires NoWildcards(f)
    ensures LikeMatches("%" + f + "%", s) <==> Contains(s, f)
    decreases |s|
  {
    assert ("%" + f + "%")[1..] == f + "%";
    LiteralThenPercent(f, s);
    if s != [] {
      LikeIsContains(f, s[1..]);
    }
  }

  /** Decimal digits of a natural number, as JavaScript's template literals print it. */
  function NatToString(n: nat): (r: string)
    ensures r != []
    ensures forall i :: 0 <= i < |r| ==> IsDigit(r[i])
  {
    if n < 10 then [('0' as int + n) as char]
    else NatToString(n / 10) + [('0' as int + n % 10) as char]
  }

  /**
   * JavaScript's `message || fallback` on an optional server message: an absent
   * or empty message gives way to the fallback.
   */
  function MessageOr(message: Option<string>, fallback: string): (r: string)
    ensures fallback != "" ==> r != ""
    ensures message.Some? && message.value != "" ==> r == message.value
    ensures message == None || message == Some("") ==> r == fallback
  {
    if message.Some? && message.value != "" then message.value else fallback
  }
}
