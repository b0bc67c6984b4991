/**
 * Likes (`src/main/java/com/phoenix/service/LikeService.java`): a like is a
 * (post, user) pair that a toggle inserts or deletes; the reported count is the
 * post's number of likes after the toggle.
 */
module LikeService {
  import opened Wrappers
  import opened Database

  datatype LikeResponse = LikeResponse(likeCount: nat, likedByCurrentUser: bool)

  /** The likes on a post. */
  function LikesOf(likes: set<Like>, post: Uuid): set<Like> {
    set l | l in likes && l.post == post
  }

  /** `countByPost` / `countByPostId`. */
  function LikeCount(likes: set<Like>, post: Uuid): nat {
    |LikesOf(likes, post)|
  }

  /**
   * A toggle moves the post's count by exactly one, in the direction of the
   * pair's membership, and leaves every other post's count alone.
   */
  lemma ToggleLikeCount(likes: set<Like>, post: Uuid, user: string, other: Uuid)
    ensures Like(post, user) in likes ==>
      LikeCount(Toggle(likes, Like(post, user)), post) + 1 == LikeCount(likes, post)
    ensures Like(post, user) !in likes ==>
      LikeCount(Toggle(likes, Like(post, user)), post) == LikeCount(likes, post) + 1
    ensures other != post ==> LikeCount(Toggle(likes, Like(post, user)), other) == LikeCount(likes, other)
  {
    var x := Like(post, user);
    var toggled := Toggle(likes, x);
    if x in likes {
      assert LikesOf(toggled, post) == LikesOf(likes, post) - {x};
    } else {
      assert LikesOf(toggled, post) == LikesOf(likes, post) + {x};
    }
    if other != post {
      assert LikesOf(toggled, other) == LikesOf(likes, other);
    }
  }

  /**
   * `toggleLike`: the post is looked up first, then the user; either missing
   * throws and changes nothing.
   */
  method ToggleLike(db: Db, postId: Uuid, userEmail: string) returns (r: Result<LikeResponse, Error>)
    modifies db`likes
    ensures postId !in db.posts ==>
      r == Err(PostNotFound("Post not found with id: " + postId)) && db.likes == old(db.likes)
    ensures postId in db.posts && FindByEmail(db.users, userEmail).None? ==>
      r == Err(UsernameNotFound("User not found")) && db.likes == old(db.likes)
    ensures postId in db.posts && FindByEmail(db.users, userEmail).Some? ==>
      && db.likes == Toggle(old(db.likes), Like(postId, userEmail))
      && r == Ok(LikeResponse(LikeCount(db.likes, postId), Like(postId, userEmail) !in old(db.likes)))
  {
    if postId !in db.posts {
      return Err(PostNotFound("Post not found with id: " + postId));
    }
    var user := FindByEmail(db.users, userEmail);
    if user.None? {
      return Err(UsernameNotFound("User not found"));
    }
    var like := Like(postId, user.value.email);
    if like in db.likes {
      db.likes := db.likes - {like};
      r := Ok(LikeResponse(LikeCount(db.likes, postId), false));
    } else {
      db.likes := db.likes + {like};
      r := Ok(LikeResponse(LikeCount(db.likes, postId), true));
    }
  }

  /** `getLikeStatus`: the count always; liked only for a known caller who liked the post. */
  function GetLikeStatus(users: seq<User>, likes: set<Like>, postId: Uuid, userEmail: Option<string>): (r: LikeResponse)
    ensures r.likeCount == LikeCount(likes, postId)
    ensures r.likedByCurrentUser <==>
      userEmail.Some? && FindByEmail(users, userEmail.value).Some? && Like(postId, userEmail.value) in likes
  {
    var liked := match userEmail
      case None => false
      case Some(email) => FindByEmail(users, email).Some? && Like(postId, email) in likes;
    LikeResponse(LikeCount(likes, postId), liked)
  }
}
