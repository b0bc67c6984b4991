/**
 * The post editor's state and handlers (`phoenix-client/src/pages/CreatePostPage.jsx`):
 * tag-chip normalisation and list editing, and the checks `handleSubmit` makes
 * before it sends the new post.
 */
module CreatePostPage {
  import opened Wrappers
  import opened Text

  const MaxTags: nat := 5

  /** The characters `[a-z0-9-]` that survive tag normalisation. */
  predicate IsTagChar(c: char) { IsLower(c) || IsDigit(c) || c == '-' }

  /** `replace(/[^a-z0-9-]/g, '')`. */
  function KeepTagChars(s: string): (r: string)
    ensures |r| <= |s|
    ensures forall i :: 0 <= i < |r| ==> IsTagChar(r[i])
  {
    if s == [] then []
    else (if IsTagChar(s[0]) then [s[0]] else []) + KeepTagChars(s[1..])
  }

  /** `raw.trim().toLowerCase().replace(/[^a-z0-9-]/g, '')`. */
  function NormalizeTag(raw: string): (tag: string)
    ensures forall i :: 0 <= i < |tag| ==> IsTagChar(tag[i])
  {
    KeepTagChars(Lower(JsTrim(raw)))
  }

  lemma {:induction false} LowerOfLower(s: string)
    requires forall i :: 0 <= i < |s| ==> !IsUpper(s[i])
    ensures Lower(s) == s
  {
  }

  /** Normalising twice is normalising once: a stored chip is its own normal form. */
  lemma NormalizeIdempotent(raw: string)
    ensures NormalizeTag(NormalizeTag(raw)) == NormalizeTag(raw)
  {
    var t := NormalizeTag(raw);
    assert t != [] ==> IsTagChar(t[0]) && IsTagChar(t[|t| - 1]);
    TrimOfUnpadded(t, IsJsSpace);
    LowerOfLower(t);
    KeepAllTagChars(t);
  }

  /** The documented example: "Hello World!" becomes "helloworld". */
  lemma NormalizeExample(raw: string)
    requires raw == "Hello World!"
    ensures NormalizeTag(raw) == "helloworld"
  {
    TrimOfUnpadded(raw, IsJsSpace);
    LowerExample(raw);
    KeepExample(Lower(raw));
  }

  lemma LowerExample(s: string)
    requires s == "Hello World!"
    ensures Lower(s) == "hello world!"
  {
    var lowered := Lower(s);
    assert |lowered| == 12;
    forall i | 0 <= i < 12 ensures lowered[i] == "hello world!"[i] {
      assert lowered[i] == LowerChar(s[i]);
    }
  }

  lemma SplitExample()
    ensures "hello world!" == "hello" + ([' '] + ("world" + ['!']))
  {
  }

  lemma KeepExample(s: string)
    requires s == "hello world!"
    ensures KeepTagChars(s) == "helloworld"
  {
    SplitExample();
    KeepAllTagChars("hello");
    KeepAllTagChars("world");
    assert KeepTagChars([' ']) == [] && KeepTagChars(['!']) == [];
    KeepTagCharsAppend("world", ['!']);
    KeepTagCharsAppend([' '], "world" + ['!']);
    KeepTagCharsAppend("hello", [' '] + ("world" + ['!']));
    assert "hello" + "world" == "helloworld";
  }

  lemma {:induction false} KeepTagCharsAppend(a: string, b: string)
    ensures KeepTagChars(a + b) == KeepTagChars(a) + KeepTagChars(b)
  {
    if a == [] {
      assert a + b == b;
    } else {
      assert (a + b)[0] == a[0] && (a + b)[1..] == a[1..] + b;
      KeepTagCharsAppend(a[1..], b);
    }
  }

  lemma {:induction false} KeepAllTagChars(s: string)
    requires forall i :: 0 <= i < |s| ==> IsTagChar(s[i])
    ensures KeepTagChars(s) == s
  {
    if s != [] {
      KeepAllTagChars(s[1..]);
    }
  }

  /** A chip as the editor stores it: non-empty and made of `[a-z0-9-]` only. */
  predicate IsNormalTag(t: string) {
    t != [] && forall k :: 0 <= k < |t| ==> IsTagChar(t[k])
  }

  /** The shape every chip list the editor builds keeps. */
  predicate TagListOk(tags: seq<string>) {
    |tags| <= MaxTags && Distinct(tags) && forall i :: 0 <= i < |tags| ==> IsNormalTag(tags[i])
  }

  /** The list after `addTag(raw)`. */
  function AddedTags(tags: seq<string>, raw: string): (r: seq<string>)
    ensures |tags| <= |r| <= |tags| + 1
    ensures r[..|tags|] == tags
    ensures |r| == |tags| + 1 <==> NormalizeTag(raw) != "" && |tags| < MaxTags && NormalizeTag(raw) !in tags
    ensures |r| == |tags| + 1 ==> r[|tags|] == NormalizeTag(raw)
  {
    var tag := NormalizeTag(raw);
    if tag != "" && |tags| < MaxTags && tag !in tags then tags + [tag] else tags
  }

  /** Adding a chip keeps the list at most five long, duplicate-free and normalised. */
  lemma AddKeepsTagListOk(tags: seq<string>, raw: string)
    requires TagListOk(tags)
    ensures TagListOk(AddedTags(tags, raw))
    ensures |AddedTags(tags, raw)| <= |tags| + 1
  {
  }

  /** `prev.filter(t => t !== tag)`. */
  function Without(tags: seq<string>, tag: string): (r: seq<string>)
    ensures |r| <= |tags|
  {
    if tags == [] then []
    else (if tags[0] != tag then [tags[0]] else []) + Without(tags[1..], tag)
  }

  /** In a duplicate-free list, removing a chip drops exactly its position and keeps the rest in order. */
  lemma {:induction false} WithoutRemovesPosition(tags: seq<string>, i: nat)
    requires i < |tags| && Distinct(tags)
    ensures Without(tags, tags[i]) == tags[..i] + tags[i + 1..]
  {
    if i == 0 {
      WithoutAbsent(tags[1..], tags[0]);
      assert tags[..0] + tags[1..] == tags[1..];
    } else {
      WithoutRemovesPosition(tags[1..], i - 1);
      assert tags[1..][..i - 1] + tags[1..][i..] == tags[1..i] + tags[i + 1..];
      assert [tags[0]] + tags[1..i] == tags[..i];
    }
  }

  lemma {:induction false} WithoutAbsent(tags: seq<string>, tag: string)
    requires tag !in tags
    ensures Without(tags, tag) == tags
  {
    if tags != [] {
      WithoutAbsent(tags[1..], tag);
    }
  }

  /** The list after a key press in the tag field whose text is `input`. */
  function TagsAfterKey(tags: seq<string>, input: string, key: string): seq<string> {
    if key == "Enter" || key == "," then AddedTags(tags, input)
    else if key == "Backspace" && input == "" && |tags| > 0 then tags[..|tags| - 1]
    else tags
  }

  /** Backspace on an empty field drops exactly the last chip; keys other than Enter, comma and Backspace change nothing. */
  lemma KeyDownCases(tags: seq<string>, input: string, key: string)
    ensures key == "Backspace" && input == "" && tags != [] ==>
      TagsAfterKey(tags, input, key) + [tags[|tags| - 1]] == tags
    ensures key != "Enter" && key != "," && key != "Backspace" ==> TagsAfterKey(tags, input, key) == tags
    ensures key == "Backspace" && input != "" ==> TagsAfterKey(tags, input, key) == tags
  {
  }

  /** The body posted to `/api/posts`. */
  datatype PostBody = PostBody(title: string, content: string, isPremium: bool, price: int, tags: seq<string>)

  const RequiredMessage: string := "Title and content are required"
  const CreateFailedMessage: string := "Failed to create post"

  /** The editor's React state. */
  class PostEditor {
    var title: string
    var content: string
    var isPremium: bool
    var price: string
    var tags: seq<string>
    var tagInput: string
    var loading: bool
    var error: string

    constructor ()
      ensures title == "" && content == "" && !isPremium && price == ""
      ensures tags == [] && tagInput == "" && !loading && error == ""
      ensures TagListOk(tags)
    {
      title, content, isPremium, price := "", "", false, "";
      tags, tagInput, loading, error := [], "", false, "";
    }

    /** `addTag(raw)`: the field is cleared whether or not a chip was added. */
    method AddTag(raw: string)
      modifies this`tags, this`tagInput
      ensures tags == AddedTags(old(tags), raw)
      ensures tagInput == ""
      ensures TagListOk(old(tags)) ==> TagListOk(tags)
    {
      var tag := NormalizeTag(raw);
      if tag != "" && |tags| < MaxTags && tag !in tags {
        tags := tags + [tag];
      }
      tagInput := "";
      if TagListOk(old(tags)) {
        AddKeepsTagListOk(old(tags), raw);
      }
    }

    /** `handleTagKeyDown`: Enter or comma adds the typed chip, Backspace on an empty field drops the last one. */
    method HandleTagKeyDown(key: string)
      modifies this`tags, this`tagInput
      ensures tags == TagsAfterKey(old(tags), old(tagInput), key)
      ensures tagInput == if key == "Enter" || key == "," then "" else old(tagInput)
      ensures TagListOk(old(tags)) ==> TagListOk(tags)
    {
      if key == "Enter" || key == "," {
        AddTag(tagInput);
      } else if key == "Backspace" && tagInput == "" && |tags| > 0 {
        tags := tags[..|tags| - 1];
      }
    }

    /** `removeTag(tag)`. */
    method RemoveTag(tag: string)
      modifies this`tags
      ensures tags == Without(old(tags), tag)
      ensures TagListOk(old(tags)) ==> TagListOk(tags)
    {
      var kept: seq<string> := [];
      var i := 0;
      while i < |tags|
        invariant 0 <= i <= |tags|
        invariant kept + Without(tags[i..], tag) == Without(tags, tag)
      {
        assert tags[i..] == [tags[i]] + tags[i + 1..];
        if tags[i] != tag {
          kept := kept + [tags[i]];
        }
        i := i + 1;
      }
      assert tags[i..] == [];
      if TagListOk(tags) {
        WithoutKeepsTagListOk(tags, tag);
      }
      tags := kept;
    }

    /**
     * The synchronous part of `handleSubmit`: the error is cleared, then a blank
     * title or content stops the submit; otherwise the body to post is returned
     * and `loading` stays on. `toPaise` is `Math.round(parseFloat(price || '0') * 100)`.
     */
    method BeginSubmit(toPaise: string -> int) returns (request: Option<PostBody>)
      modifies this`error, this`loading
      ensures JsTrim(title) == "" || JsTrim(content) == "" <==> request == None
      ensures request == None ==> error == RequiredMessage && !loading
      ensures request.Some? ==> error == "" && loading
      ensures request.Some? ==> request.value == PostBody(title, content, isPremium,
        if isPremium then toPaise(price) else 0, tags)
    {
      error := "";
      loading := true;
      if JsTrim(title) == "" || JsTrim(content) == "" {
        error := RequiredMessage;
        loading := false;
        return None;
      }
      var paise := if isPremium then toPaise(price) else 0;
      request := Some(PostBody(title, content, isPremium, paise, tags));
    }

    /**
     * The asynchronous part: the server's answer is the new post's id or the
     * failure's message, if any. Returns the route navigated to.
     */
    method FinishSubmit(response: Result<string, Option<string>>) returns (navigateTo: Option<string>)
      modifies this`error, this`loading
      ensures !loading
      ensures response.Ok? ==> navigateTo == Some("/posts/" + response.value) && error == old(error)
      ensures response.Err? ==> navigateTo == None && error == MessageOr(response.error, CreateFailedMessage)
    {
      if response.Ok? {
        navigateTo := Some("/posts/" + response.value);
      } else {
        error := MessageOr(response.error, CreateFailedMessage);
        navigateTo := None;
      }
      loading := false;
    }
  }

  lemma WithoutKeepsTagListOk(tags: seq<string>, tag: string)
    requires TagListOk(tags)
    ensures TagListOk(Without(tags, tag))
  {
    if tag in tags {
      var i :| 0 <= i < |tags| && tags[i] == tag;
      WithoutRemovesPosition(tags, i);
    } else {
      WithoutAbsent(tags, tag);
    }
  }
}
