/**
 * The reading-time estimate `convertToResponse` attaches to a post
 * (`src/main/java/com/phoenix/service/PostService.java`): the content's
 * whitespace-separated words at 200 words a minute, rounded up, and never
 * less than one minute.
 */
module PostContent {
  import opened Text

  const WordsPerMinute: nat := 200

  /** The index of the first `\s` character, or the length when there is none. */
  function FirstSpace(t: string): (i: nat)
    ensures i <= |t|
    ensures forall k :: 0 <= k < i ==> !IsRegexSpace(t[k])
    ensures i < |t| ==> IsRegexSpace(t[i])
  {
    if t == [] || IsRegexSpace(t[0]) then 0 else 1 + FirstSpace(t[1..])
  }

  /**
   * `split("\\s+")` on a string with no `\s` at either end: the pieces between
   * runs of whitespace. (Java's `"".split(...)` is `[""]`, one piece.)
   */
  function SplitWords(t: string): (r: seq<string>)
    ensures |r| >= 1
    decreases |t|
  {
    var i := FirstSpace(t);
    if i == |t| then [t]
    else [t[..i]] + SplitWords(TrimStart(t[i..], IsRegexSpace))
  }

  /** The characters of `t` that are not `\s`, in order. */
  function DropSpaces(t: string): string {
    if t == [] then [] else (if IsRegexSpace(t[0]) then [] else [t[0]]) + DropSpaces(t[1..])
  }

  function Concat(words: seq<string>): string {
    if words == [] then [] else words[0] + Concat(words[1..])
  }

  lemma {:induction false} DropSpacesAppend(a: string, b: string)
    ensures DropSpaces(a + b) == DropSpaces(a) + DropSpaces(b)
  {
    if a == [] {
      assert a + b == b;
    } else {
      assert (a + b)[1..] == a[1..] + b;
      DropSpacesAppend(a[1..], b);
    }
  }

  lemma {:induction false} DropSpacesOfWord(w: string)
    requires forall k :: 0 <= k < |w| ==> !IsRegexSpace(w[k])
    ensures DropSpaces(w) == w
  {
    if w != [] {
      DropSpacesOfWord(w[1..]);
    }
  }

  lemma {:induction false} DropSpacesTrimStart(t: string)
    ensures DropSpaces(TrimStart(t, IsRegexSpace)) == DropSpaces(t)
  {
    if t != [] && IsRegexSpace(t[0]) {
      DropSpacesTrimStart(t[1..]);
    }
  }

  lemma {:induction false} TrimStartEmpty(t: string)
    requires TrimStart(t, IsRegexSpace) == []
    ensures forall k :: 0 <= k < |t| ==> IsRegexSpace(t[k])
  {
    if t != [] {
      TrimStartEmpty(t[1..]);
      assert forall k :: 1 <= k < |t| ==> t[k] == t[1..][k - 1];
    }
  }

  /** What follows the first run of whitespace in an unpadded string is unpadded and non-empty. */
  lemma RestAfterFirstSpace(t: string)
    requires t != [] ==> !IsRegexSpace(t[0]) && !IsRegexSpace(t[|t| - 1])
    requires FirstSpace(t) < |t|
    ensures var rest := TrimStart(t[FirstSpace(t)..], IsRegexSpace);
      rest != [] && !IsRegexSpace(rest[0]) && !IsRegexSpace(rest[|rest| - 1])
  {
    var i := FirstSpace(t);
    var rest := TrimStart(t[i..], IsRegexSpace);
    TrimStartNoPadding(t[i..], IsRegexSpace);
    if rest == [] {
      TrimStartEmpty(t[i..]);
    }
  }

  /**
   * Splitting a non-empty string with no whitespace at either end gives
   * non-empty, whitespace-free words.
   */
  lemma {:induction false} SplitWordsAreWords(t: string)
    requires t != [] && !IsRegexSpace(t[0]) && !IsRegexSpace(t[|t| - 1])
    ensures forall w :: w in SplitWords(t) ==> w != [] && forall k :: 0 <= k < |w| ==> !IsRegexSpace(w[k])
    decreases |t|
  {
    var i := FirstSpace(t);
    if i < |t| {
      RestAfterFirstSpace(t);
      SplitWordsAreWords(TrimStart(t[i..], IsRegexSpace));
    }
  }

  /** Putting the words back together gives the string without its whitespace: splitting loses nothing else. */
  lemma {:induction false} SplitWordsConcat(t: string)
    requires t != [] ==> !IsRegexSpace(t[0]) && !IsRegexSpace(t[|t| - 1])
    ensures Concat(SplitWords(t)) == DropSpaces(t)
    decreases |t|
  {
    var i := FirstSpace(t);
    if i == |t| {
      DropSpacesOfWord(t);
      assert Concat([t]) == t + Concat([]);
    } else {
      var head, rest := t[..i], TrimStart(t[i..], IsRegexSpace);
      RestAfterFirstSpace(t);
      SplitWordsConcat(rest);
      DropSpacesOfWord(head);
      DropSpacesTrimStart(t[i..]);
      assert t == head + t[i..];
      DropSpacesAppend(head, t[i..]);
      assert Concat(SplitWords(t)) == head + Concat(SplitWords(rest));
    }
  }

  /** `fullContent.isBlank() ? 0 : fullContent.trim().split("\\s+").length` (content is never null). */
  function WordCount(content: string): nat {
    if IsBlank(content) then 0 else |SplitWords(JavaTrim(content))|
  }

  /** `Math.max(1, (int) Math.ceil(words / 200.0))`; the quotient is exact at any realistic word count. */
  function ReadingTime(words: nat): (minutes: nat)
    ensures minutes >= 1
    ensures words > 0 ==> WordsPerMinute * (minutes - 1) < words <= WordsPerMinute * minutes
    ensures words <= WordsPerMinute ==> minutes == 1
  {
    var ceiling := (words + WordsPerMinute - 1) / WordsPerMinute;
    if ceiling < 1 then 1 else ceiling
  }

  /** More words never mean fewer minutes. */
  lemma ReadingTimeMonotone(a: nat, b: nat)
    requires a <= b
    ensures ReadingTime(a) <= ReadingTime(b)
  {
  }
}
