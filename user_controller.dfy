/**
 * The public user profile (`src/main/java/com/phoenix/controller/UserController.java`):
 * a user looked up by name, with their published posts, follower and
 * following counts, and the viewer's follow and like flags.
 *
 * The user's post collection (`user.getPosts()`) is a parameter `owned`, in
 * the collection's order; `PostsOf` says it is exactly the user's stored
 * posts, each once. The principal is `viewer`, as in `PostService`.
 */
module UserController {
  import opened Wrappers
  import opened Text
  import opened Database
  import opened PostService
  import LikeService
  import FollowService

  datatype UserProfileResponse = UserProfileResponse(
    username: string,
    totalPosts: nat,
    posts: seq<PostResponse>,
    followersCount: nat,
    followingCount: nat,
    followedByCurrentUser: bool)

  /** The profile's filter: a post with no status counts as published. */
  predicate IsPublished(post: Post) {
    post.status.None? || post.status == Some(Published)
  }

  /** `owned` lists the stored posts written by `email`, all of them, each once. */
  predicate PostsOf(posts: map<Uuid, Post>, email: string, owned: seq<Uuid>) {
    && (forall i :: 0 <= i < |owned| ==> owned[i] in posts && posts[owned[i]].author == email)
    && (forall k :: k in posts && posts[k].author == email ==> k in owned)
    && Distinct(owned)
  }

  /** The published posts written by `email`, as a set. */
  function PublishedOf(posts: map<Uuid, Post>, email: string): set<Uuid> {
    set k | k in posts && posts[k].author == email && IsPublished(posts[k])
  }

  /** The stream filter: the published ids of `owned`, in their order. */
  function PublishedOnly(posts: map<Uuid, Post>, owned: seq<Uuid>): (r: seq<Uuid>)
    requires forall i :: 0 <= i < |owned| ==> owned[i] in posts
    ensures |r| <= |owned|
    ensures forall k :: k in r <==> k in owned && k in posts && IsPublished(posts[k])
    ensures Distinct(owned) ==> Distinct(r)
  {
    if owned == [] then []
    else
      var rest := PublishedOnly(posts, owned[1..]);
      assert forall k :: k in owned[1..] ==> k in owned;
      if IsPublished(posts[owned[0]]) then [owned[0]] + rest else rest
  }

  /** A sequence without repeats has as many elements as the set of its elements. */
  lemma {:induction false} DistinctCard<T>(s: seq<T>)
    requires Distinct(s)
    ensures |set x | x in s| == |s|
  {
    if s != [] {
      assert Distinct(s[1..]) by {
        forall i, j | 0 <= i < j < |s[1..]|
          ensures s[1..][i] != s[1..][j]
        {
          assert s[1..][i] == s[i + 1] && s[1..][j] == s[j + 1];
        }
      }
      DistinctCard(s[1..]);
      assert s[0] !in s[1..] by {
        forall i | 0 <= i < |s[1..]|
          ensures s[1..][i] != s[0]
        {
          assert s[1..][i] == s[i + 1];
        }
      }
      assert (set x | x in s) == (set x | x in s[1..]) + {s[0]} by {
        assert s == [s[0]] + s[1..];
      }
    }
  }

  /**
   * One listed post as the profile builds it: id, title, the stored content,
   * author, comment and like counts, the viewer's like flag, and the fixed
   * status "PUBLISHED"; the builder sets no other field.
   */
  function ProfileEntry(db: Db, id: Uuid, current: Option<User>): (r: PostResponse)
    reads db
    requires id in db.posts
  {
    var post := db.posts[id];
    var liked := current.Some? && Like(id, current.value.email) in db.likes;
    PostResponse(
      id, post.title, post.content, NameOf(db.users, post.author), post.author,
      |CommentsOn(db.comments, id)|, LikeService.LikeCount(db.likes, id), liked,
      false, 0, false, false, 0, 0, [], "PUBLISHED", false)
  }

  function ProfileEntries(db: Db, ids: seq<Uuid>, current: Option<User>): (r: seq<PostResponse>)
    reads db
    requires forall i :: 0 <= i < |ids| ==> ids[i] in db.posts
    ensures |r| == |ids|
    ensures forall i :: 0 <= i < |ids| ==> r[i].id == ids[i]
    ensures forall i :: 0 <= i < |ids| ==> r[i].status == "PUBLISHED"
    ensures forall i :: 0 <= i < |ids| ==> r[i].content == db.posts[ids[i]].content
    ensures forall i :: 0 <= i < |ids| ==>
      (r[i].likedByCurrentUser <==> current.Some? && Like(ids[i], current.value.email) in db.likes)
  {
    if ids == [] then []
    else [ProfileEntry(db, ids[0], current)] + ProfileEntries(db, ids[1..], current)
  }

  /**
   * `listed` shows exactly the published posts written by `email`, each once,
   * each reporting "PUBLISHED" with its stored content.
   */
  predicate ListsPublished(posts: map<Uuid, Post>, email: string, listed: seq<PostResponse>) {
    && (forall i :: 0 <= i < |listed| ==> listed[i].id in PublishedOf(posts, email))
    && (forall k :: k in PublishedOf(posts, email) ==> exists i :: 0 <= i < |listed| && listed[i].id == k)
    && (forall i, j :: 0 <= i < j < |listed| ==> listed[i].id != listed[j].id)
    && (forall i :: 0 <= i < |listed| ==> listed[i].status == "PUBLISHED")
    && (forall i :: 0 <= i < |listed| ==> listed[i].id in posts && listed[i].content == posts[listed[i].id].content)
  }

  /** The filtered, mapped collection lists the user's published posts, with the viewer's like flags. */
  lemma ProfileListing(db: Db, email: string, owned: seq<Uuid>, current: Option<User>)
    requires PostsOf(db.posts, email, owned)
    ensures var listed := ProfileEntries(db, PublishedOnly(db.posts, owned), current);
      && ListsPublished(db.posts, email, listed)
      && forall i :: 0 <= i < |listed| ==>
           (listed[i].likedByCurrentUser <==> current.Some? && Like(listed[i].id, current.value.email) in db.likes)
  {
    var published := PublishedOnly(db.posts, owned);
    var listed := ProfileEntries(db, published, current);
    forall i | 0 <= i < |listed|
      ensures listed[i].id in PublishedOf(db.posts, email)
    {
      assert published[i] in published;
    }
    forall k | k in PublishedOf(db.posts, email)
      ensures exists i :: 0 <= i < |listed| && listed[i].id == k
    {
      assert k in owned;
      var i :| 0 <= i < |published| && published[i] == k;
      assert listed[i].id == k;
    }
  }

  /**
   * `getUserProfile`: an unknown name throws; otherwise the user's published
   * posts in collection order, their number, the follow counts, and the
   * viewer's flags, which are false for an anonymous viewer.
   */
  function GetUserProfile(db: Db, username: string, viewer: Option<string>, owned: seq<Uuid>)
    : (r: Result<UserProfileResponse, Error>)
    reads db
    requires FindByName(db.users, username).Some? ==>
      PostsOf(db.posts, FindByName(db.users, username).value.email, owned)
    ensures FindByName(db.users, username).None? <==>
      r == Err(PostNotFound("User not found with username: " + username))
    ensures r.Ok? ==>
      && FindByName(db.users, username).Some?
      && var user := FindByName(db.users, username).value;
      var listed := r.value.posts;
      && r.value.username == user.name
      && r.value.totalPosts == |listed|
      && ListsPublished(db.posts, user.email, listed)
      && (forall i :: 0 <= i < |listed| ==>
            (listed[i].likedByCurrentUser <==>
               CurrentUser(db.users, viewer).Some? && Like(listed[i].id, viewer.value) in db.likes))
      && r.value.followersCount == FollowService.FollowersCount(db.users, db.follows, username)
      && r.value.followingCount == FollowService.FollowingCount(db.users, db.follows, username)
      && (r.value.followedByCurrentUser <==>
            viewer.Some? && FollowService.IsFollowing(db.users, db.follows, username, viewer.value))
  {
    match FindByName(db.users, username)
    case None => Err(PostNotFound("User not found with username: " + username))
    case Some(user) =>
      var current := CurrentUser(db.users, viewer);
      var listed := ProfileEntries(db, PublishedOnly(db.posts, owned), current);
      ProfileListing(db, user.email, owned, current);
      Ok(UserProfileResponse(
        user.name, |listed|, listed,
        FollowService.FollowersCount(db.users, db.follows, username),
        FollowService.FollowingCount(db.users, db.follows, username),
        viewer.Some? && FollowService.IsFollowing(db.users, db.follows, username, viewer.value)))
  }

  /** `totalPosts` is the number of the user's published posts. */
  lemma ProfileTotalCountsPublished(db: Db, username: string, viewer: Option<string>, owned: seq<Uuid>)
    requires FindByName(db.users, username).Some?
    requires PostsOf(db.posts, FindByName(db.users, username).value.email, owned)
    ensures GetUserProfile(db, username, viewer, owned).Ok?
    ensures GetUserProfile(db, username, viewer, owned).value.totalPosts
      == |PublishedOf(db.posts, FindByName(db.users, username).value.email)|
  {
    var email := FindByName(db.users, username).value.email;
    var published := PublishedOnly(db.posts, owned);
    DistinctCard(published);
    assert (set x | x in published) == PublishedOf(db.posts, email);
  }

  /**
   * As written, the profile hands a premium post's full content to an
   * anonymous visitor, where `convertToResponse` would blank it.
   */
  lemma PremiumContentExposedOnProfile(db: Db, username: string, owned: seq<Uuid>, i: nat)
    requires FindByName(db.users, username).Some?
    requires PostsOf(db.posts, FindByName(db.users, username).value.email, owned)
    requires i < |GetUserProfile(db, username, None, owned).value.posts|
    requires var id := GetUserProfile(db, username, None, owned).value.posts[i].id;
      db.posts[id].isPremium && db.posts[id].content != ""
    ensures var entry := GetUserProfile(db, username, None, owned).value.posts[i];
      && entry.content == db.posts[entry.id].content
      && entry.content != ""
      && ConvertToResponse(db, entry.id, None).content == ""
  {
  }

  /** The listed posts with each content passed through the premium gate of `convertToResponse`. */
  function GateEntries(db: Db, entries: seq<PostResponse>, viewer: Option<string>): (r: seq<PostResponse>)
    reads db
    requires forall i :: 0 <= i < |entries| ==> entries[i].id in db.posts
    ensures |r| == |entries|
    ensures forall i :: 0 <= i < |entries| ==>
      r[i] == entries[i].(content := ConvertToResponse(db, entries[i].id, viewer).content)
  {
    if entries == [] then []
    else
      [entries[0].(content := ConvertToResponse(db, entries[0].id, viewer).content)]
        + GateEntries(db, entries[1..], viewer)
  }

  /**
   * The profile as evidently intended: identical to `GetUserProfile` except
   * that each listed post's content goes through the same premium gate as
   * every other post response.
   */
  function GetUserProfileGated(db: Db, username: string, viewer: Option<string>, owned: seq<Uuid>)
    : (r: Result<UserProfileResponse, Error>)
    reads db
    requires FindByName(db.users, username).Some? ==>
      PostsOf(db.posts, FindByName(db.users, username).value.email, owned)
    ensures var plain := GetUserProfile(db, username, viewer, owned);
      && (r.Ok? <==> plain.Ok?)
      && (r.Err? ==> r == plain)
      && (r.Ok? ==>
            && r.value.(posts := []) == plain.value.(posts := [])
            && |r.value.posts| == |plain.value.posts|
            && forall i :: 0 <= i < |r.value.posts| ==>
                 && r.value.posts[i].(content := "") == plain.value.posts[i].(content := "")
                 && r.value.posts[i].content == ConvertToResponse(db, r.value.posts[i].id, viewer).content)
  {
    match GetUserProfile(db, username, viewer, owned)
    case Err(e) => Err(e)
    case Ok(profile) =>
      Ok(profile.(posts := GateEntries(db, profile.posts, viewer)))
  }

  /**
   * On the gated profile a premium post's non-empty content reaches the
   * viewer exactly when the viewer wrote it or holds a completed payment for
   * it; an anonymous visitor never sees it; free posts are shown in full.
   */
  lemma GatedProfileHidesPremium(db: Db, username: string, viewer: Option<string>, owned: seq<Uuid>, i: nat)
    requires FindByName(db.users, username).Some?
    requires PostsOf(db.posts, FindByName(db.users, username).value.email, owned)
    requires i < |GetUserProfileGated(db, username, viewer, owned).value.posts|
    ensures var entry := GetUserProfileGated(db, username, viewer, owned).value.posts[i];
      var post := db.posts[entry.id];
      && (!post.isPremium ==> entry.content == post.content)
      && (post.isPremium && post.content != "" ==>
            (entry.content == post.content <==>
               && CurrentUser(db.users, viewer).Some?
               && (post.author == viewer.value || HasCompletedPayment(db.payments, entry.id, viewer.value))))
      && (post.isPremium && viewer.None? ==> entry.content == "")
  {
    var entry := GetUserProfileGated(db, username, viewer, owned).value.posts[i];
    PremiumGate(db, entry.id, viewer);
  }
}
