/**
 * Bookmarks (`src/main/java/com/phoenix/service/BookmarkService.java`): a
 * (user, post) pair that a toggle inserts or deletes.
 */
module BookmarkService {
  import opened Wrappers
  import opened Database

  /**
   * `toggleBookmark`: the user is looked up first, then the post (both
   * failures are reported as `PostNotFoundException`). Returns whether the
   * post is now bookmarked.
   */
  method ToggleBookmark(db: Db, postId: Uuid, userEmail: string) returns (r: Result<bool, Error>)
    modifies db`bookmarks
    ensures FindByEmail(db.users, userEmail).None? ==>
      r == Err(PostNotFound("User not found")) && db.bookmarks == old(db.bookmarks)
    ensures FindByEmail(db.users, userEmail).Some? && postId !in db.posts ==>
      r == Err(PostNotFound("Post not found")) && db.bookmarks == old(db.bookmarks)
    ensures FindByEmail(db.users, userEmail).Some? && postId in db.posts ==>
      && db.bookmarks == Toggle(old(db.bookmarks), Bookmark(userEmail, postId))
      && r == Ok(Bookmark(userEmail, postId) !in old(db.bookmarks))
  {
    var user := FindByEmail(db.users, userEmail);
    if user.None? {
      return Err(PostNotFound("User not found"));
    }
    if postId !in db.posts {
      return Err(PostNotFound("Post not found"));
    }
    var bookmark := Bookmark(user.value.email, postId);
    if bookmark in db.bookmarks {
      db.bookmarks := db.bookmarks - {bookmark};
      r := Ok(false);
    } else {
      db.bookmarks := db.bookmarks + {bookmark};
      r := Ok(true);
    }
  }

  /** A toggle touches only the caller's pair for that post: everyone else's bookmarks stay as they were. */
  lemma ToggleBookmarkOthers(bookmarks: set<Bookmark>, user: string, post: Uuid, other: Bookmark)
    requires other != Bookmark(user, post)
    ensures other in Toggle(bookmarks, Bookmark(user, post)) <==> other in bookmarks
  {
  }

  /** `getMyBookmarks`: the posts the caller has bookmarked. */
  function GetMyBookmarks(users: seq<User>, bookmarks: set<Bookmark>, userEmail: string): (r: Result<set<Uuid>, Error>)
    ensures FindByEmail(users, userEmail).None? <==> r == Err(PostNotFound("User not found"))
    ensures r.Ok? ==> forall p :: p in r.value <==> Bookmark(userEmail, p) in bookmarks
  {
    if FindByEmail(users, userEmail).None? then Err(PostNotFound("User not found"))
    else
      var mine := set b | b in bookmarks && b.user == userEmail :: b.post;
      assert forall p :: Bookmark(userEmail, p) in bookmarks ==> p in mine;
      Ok(mine)
  }
}
