/**
 * Tag resolution for a post (`resolveOrCreateTags` in
 * `src/main/java/com/phoenix/service/PostService.java`): the requested names
 * are filtered, trimmed, lowercased, de-duplicated and capped at five; each
 * surviving name is then found in the tag table or added to it.
 */
module PostTags {
  import opened Wrappers
  import opened Text
  import opened Database

  const MaxTags: nat := 5

  /** `n.trim().toLowerCase()`. */
  function NormalizeName(n: string): string {
    Lower(JavaTrim(n))
  }

  /** `filter(n -> n != null && !n.isBlank())` followed by the normalising `map`. */
  function Candidates(names: seq<Option<string>>): (r: seq<string>)
    ensures |r| <= |names|
  {
    if names == [] then []
    else
      var last := names[|names| - 1];
      Candidates(names[..|names| - 1]) + (if last.Some? && !IsBlank(last.value) then [NormalizeName(last.value)] else [])
  }

  /** `distinct()`: the first occurrence of each name, in order. */
  function Dedup(s: seq<string>): (r: seq<string>)
    ensures |r| <= |s|
    ensures forall x :: x in r ==> x in s
  {
    if s == [] then []
    else
      var d := Dedup(s[..|s| - 1]);
      if s[|s| - 1] in d then d else d + [s[|s| - 1]]
  }

  /** `limit(n)`. */
  function Take(s: seq<string>, n: nat): (r: seq<string>)
    ensures |r| <= n && r <= s
    ensures |s| <= n ==> r == s
  {
    if |s| <= n then s else s[..n]
  }

  /** The names `resolveOrCreateTags` goes on to find or create, in order. */
  function ResolveTagNames(names: seq<Option<string>>): seq<string> {
    Take(Dedup(Candidates(names)), MaxTags)
  }

  /** Every candidate comes from a non-null, non-blank request name. */
  lemma {:induction false} CandidatesOrigin(names: seq<Option<string>>, x: string)
    requires x in Candidates(names)
    ensures exists j :: 0 <= j < |names| && names[j].Some? && !IsBlank(names[j].value) && NormalizeName(names[j].value) == x
  {
    var init := names[..|names| - 1];
    if x in Candidates(init) {
      CandidatesOrigin(init, x);
      var j :| 0 <= j < |init| && init[j].Some? && !IsBlank(init[j].value) && NormalizeName(init[j].value) == x;
      assert names[j] == init[j];
    } else {
      assert names[|names| - 1].Some? && NormalizeName(names[|names| - 1].value) == x;
    }
  }

  /** Every non-null, non-blank request name yields a candidate. */
  lemma {:induction false} CandidatesComplete(names: seq<Option<string>>, j: nat)
    requires j < |names| && names[j].Some? && !IsBlank(names[j].value)
    ensures NormalizeName(names[j].value) in Candidates(names)
  {
    var init := names[..|names| - 1];
    if j < |names| - 1 {
      assert init[j] == names[j];
      CandidatesComplete(init, j);
    }
  }

  /** De-duplication keeps exactly the same names and leaves no repeats. */
  lemma {:induction false} DedupSpec(s: seq<string>)
    ensures Distinct(Dedup(s))
    ensures forall x :: x in Dedup(s) <==> x in s
  {
    if s != [] {
      var init := s[..|s| - 1];
      DedupSpec(init);
      assert s == init + [s[|s| - 1]];
    }
  }

  /** The position of the first occurrence of `x` in `s`. */
  function FirstIndex(s: seq<string>, x: string): (i: nat)
    requires x in s
    ensures i < |s| && s[i] == x
    ensures forall k :: 0 <= k < i ==> s[k] != x
  {
    if s[0] == x then 0 else 1 + FirstIndex(s[1..], x)
  }

  /** Any position holding `x` with no `x` before it is the first occurrence. */
  lemma FirstIndexUnique(s: seq<string>, x: string, i: nat)
    requires i < |s| && s[i] == x
    requires forall k :: 0 <= k < i ==> s[k] != x
    ensures FirstIndex(s, x) == i
  {
  }

  /**
   * `distinct()` keeps first occurrences in encounter order: a name listed
   * before another first occurs earlier in the input.
   */
  lemma {:induction false} DedupOrder(s: seq<string>)
    ensures forall i, j :: 0 <= i < j < |Dedup(s)| ==> FirstIndex(s, Dedup(s)[i]) < FirstIndex(s, Dedup(s)[j])
  {
    if s != [] {
      var init := s[..|s| - 1];
      var last := s[|s| - 1];
      var d0 := Dedup(init);
      DedupOrder(init);
      DedupSpec(init);
      assert s == init + [last];
      forall y | y in d0
        ensures FirstIndex(s, y) == FirstIndex(init, y)
      {
        var k := FirstIndex(init, y);
        assert s[k] == y;
        FirstIndexUnique(s, y, k);
      }
      if last !in d0 {
        FirstIndexUnique(s, last, |s| - 1);
      }
    }
  }

  /**
   * Capping the de-duplicated names keeps the earliest ones: a name that
   * appears before the first occurrence of a kept name is kept too, and the
   * kept names come in the order they first appear.
   */
  lemma TakeDedupKeepsEarliest(c: seq<string>, n: nat)
    ensures var r := Take(Dedup(c), n);
      && (forall i, j :: 0 <= i < j < |c| && c[j] in r && c[j] !in c[..j] ==> c[i] in r)
      && (forall i, j, k :: 0 <= i < j < |r| && 0 <= k < |c| && c[k] == r[j] ==> r[i] in c[..k])
  {
    var d := Dedup(c);
    var r := Take(d, n);
    DedupSpec(c);
    DedupOrder(c);
    assert r == d[..|r|];
    forall i, j | 0 <= i < j < |c| && c[j] in r && c[j] !in c[..j]
      ensures c[i] in r
    {
      var b :| 0 <= b < |r| && r[b] == c[j];
      assert d[b] == c[j];
      assert forall k :: 0 <= k < j ==> c[k] != c[j] by {
        forall k | 0 <= k < j ensures c[k] != c[j] { assert c[k] == c[..j][k]; }
      }
      FirstIndexUnique(c, c[j], j);
      assert c[i] in d;
      var a :| 0 <= a < |d| && d[a] == c[i];
      assert FirstIndex(c, c[i]) <= i;
      assert c[..j][i] == c[i];
      assert a < b;
      assert r[a] == c[i];
    }
    forall i, j, k | 0 <= i < j < |r| && 0 <= k < |c| && c[k] == r[j]
      ensures r[i] in c[..k]
    {
      assert r[i] == d[i] && r[j] == d[j];
      var f := FirstIndex(c, r[i]);
      assert f < FirstIndex(c, r[j]) <= k;
      assert c[..k][f] == r[i];
    }
  }

  /** A candidate is trimmed (no character up to U+0020 at either end) and has no upper-case ASCII letter. */
  lemma CandidateShape(names: seq<Option<string>>, x: string)
    requires x in Candidates(names)
    ensures x != [] ==> !IsJavaTrimmed(x[0]) && !IsJavaTrimmed(x[|x| - 1])
    ensures IsLowerCase(x)
  {
    CandidatesOrigin(names, x);
    var j :| 0 <= j < |names| && names[j].Some? && !IsBlank(names[j].value) && NormalizeName(names[j].value) == x;
    TrimLeavesNoPadding(names[j].value, IsJavaTrimmed);
  }

  /**
   * The resolved names: at most five, pairwise distinct, trimmed and
   * lower-case, each the normal form of a non-blank request name; and when
   * there are at most five distinct candidates, none is dropped.
   */
  lemma ResolvedNamesShape(names: seq<Option<string>>)
    ensures var r := ResolveTagNames(names);
      && |r| <= MaxTags
      && Distinct(r)
      && (forall i :: 0 <= i < |r| ==> IsLowerCase(r[i]))
      && (forall i :: 0 <= i < |r| && r[i] != [] ==> !IsJavaTrimmed(r[i][0]) && !IsJavaTrimmed(r[i][|r[i]| - 1]))
      && (forall i :: 0 <= i < |r| ==>
            exists j :: 0 <= j < |names| && names[j].Some? && !IsBlank(names[j].value) && NormalizeName(names[j].value) == r[i])
      && (|Dedup(Candidates(names))| <= MaxTags ==>
            forall j :: 0 <= j < |names| && names[j].Some? && !IsBlank(names[j].value) ==>
              NormalizeName(names[j].value) in r)
      && var c := Candidates(names);
      && (forall i, j :: 0 <= i < j < |c| && c[j] in r && c[j] !in c[..j] ==> c[i] in r)
      && (forall i, j, k :: 0 <= i < j < |r| && 0 <= k < |c| && c[k] == r[j] ==> r[i] in c[..k])
  {
    var c := Candidates(names);
    var d := Dedup(c);
    var r := ResolveTagNames(names);
    DedupSpec(c);
    assert forall i :: 0 <= i < |r| ==> r[i] == d[i];
    forall i | 0 <= i < |r|
      ensures IsLowerCase(r[i])
      ensures r[i] != [] ==> !IsJavaTrimmed(r[i][0]) && !IsJavaTrimmed(r[i][|r[i]| - 1])
      ensures exists j :: 0 <= j < |names| && names[j].Some? && !IsBlank(names[j].value) && NormalizeName(names[j].value) == r[i]
    {
      assert r[i] in d;
      CandidateShape(names, r[i]);
      CandidatesOrigin(names, r[i]);
    }
    if |d| <= MaxTags {
      forall j | 0 <= j < |names| && names[j].Some? && !IsBlank(names[j].value)
        ensures NormalizeName(names[j].value) in r
      {
        CandidatesComplete(names, j);
      }
    }
    TakeDedupKeepsEarliest(c, MaxTags);
  }

  /**
   * A name made only of control characters is not blank to `isBlank` but is
   * trimmed away entirely: it resolves to the empty tag name.
   */
  lemma ControlCharacterNameResolvesToEmpty(names: seq<Option<string>>)
    requires names == [Some("\U{0001}")]
    ensures ResolveTagNames(names) == [""]
  {
    var n := "\U{0001}";
    assert !IsBlank(n) by { assert !IsJavaWhitespace(n[0]); }
    assert JavaTrim(n) == "";
    assert Candidates(names) == Candidates([]) + [NormalizeName(n)];
    assert Dedup([""]) == [""];
  }

  /**
   * The tag rows a find-or-create pass appends: each name that is not yet
   * stored, in order.
   */
  function Absent(tags: seq<string>, names: seq<string>): (r: seq<string>)
    ensures forall x :: x in r ==> x in names && x !in tags
  {
    if names == [] then []
    else
      var last := names[|names| - 1];
      Absent(tags, names[..|names| - 1]) + (if last in tags then [] else [last])
  }

  /**
   * The find-or-create pass over the resolved names: an existing row is
   * reused, a missing one is created. Stored names stay unique, and every
   * resolved name is stored afterwards.
   */
  method FindOrCreateTags(db: Db, names: seq<string>)
    requires Distinct(names)
    modifies db`tags
    ensures db.tags == old(db.tags) + Absent(old(db.tags), names)
    ensures Distinct(old(db.tags)) ==> Distinct(db.tags)
    ensures forall x :: x in names ==> x in db.tags
  {
    var i := 0;
    while i < |names|
      invariant 0 <= i <= |names|
      invariant db.tags == old(db.tags) + Absent(old(db.tags), names[..i])
      invariant Distinct(old(db.tags)) ==> Distinct(db.tags)
      invariant forall k :: 0 <= k < i ==> names[k] in db.tags
    {
      assert names[..i + 1][..i] == names[..i];
      if names[i] !in db.tags {
        assert names[i] !in old(db.tags);
        db.tags := db.tags + [names[i]];
      }
      i := i + 1;
    }
    assert names[..i] == names;
  }
}
