/**
 * Follows (`src/main/java/com/phoenix/service/FollowService.java`): a
 * (follower, following) pair, unique per pair, toggled by the follower; a new
 * follow notifies the followed user.
 */
module FollowService {
  import opened Wrappers
  import opened Text
  import opened Database
  import opened NotificationService

  /** The notification a new follow sends to the followed user. */
  function FollowNotification(follower: User, following: User): Notification {
    Notification(following.email, FollowNotice, follower.name, follower.name + " started following you", None, None, false)
  }

  /**
   * `toggleFollow(targetUsername, currentUserEmail)`: the caller is looked up
   * by address, the target by name; following yourself is refused. Returns
   * whether the caller now follows the target.
   */
  method ToggleFollow(db: Db, targetUsername: string, currentUserEmail: string, notificationId: Uuid)
    returns (r: Result<bool, Error>)
    requires notificationId !in db.notifications
    modifies db`follows, db`notifications
    ensures FindByEmail(db.users, currentUserEmail).None? ==>
      && r == Err(PostNotFound("User not found"))
      && db.follows == old(db.follows) && db.notifications == old(db.notifications)
    ensures FindByEmail(db.users, currentUserEmail).Some? && FindByName(db.users, targetUsername).None? ==>
      && r == Err(PostNotFound("User not found: " + targetUsername))
      && db.follows == old(db.follows) && db.notifications == old(db.notifications)
    ensures FindByEmail(db.users, currentUserEmail).Some? && FindByName(db.users, targetUsername).Some? ==>
      var follower := FindByEmail(db.users, currentUserEmail).value;
      var following := FindByName(db.users, targetUsername).value;
      var pair := Follow(follower.email, following.email);
      && (follower.email == following.email ==>
            && r == Err(IllegalArgument("You cannot follow yourself"))
            && db.follows == old(db.follows) && db.notifications == old(db.notifications))
      && (follower.email != following.email ==>
            && db.follows == Toggle(old(db.follows), pair)
            && r == Ok(pair !in old(db.follows))
            && (pair in old(db.follows) || EqualsIgnoreCase(following.email, follower.email) ==>
                  db.notifications == old(db.notifications))
            && (pair !in old(db.follows) && !EqualsIgnoreCase(following.email, follower.email) ==>
                  db.notifications == old(db.notifications)[notificationId := FollowNotification(follower, following)]))
  {
    var follower := FindByEmail(db.users, currentUserEmail);
    if follower.None? {
      return Err(PostNotFound("User not found"));
    }
    var following := FindByName(db.users, targetUsername);
    if following.None? {
      return Err(PostNotFound("User not found: " + targetUsername));
    }
    if follower.value.email == following.value.email {
      return Err(IllegalArgument("You cannot follow yourself"));
    }
    var pair := Follow(follower.value.email, following.value.email);
    if pair in db.follows {
      db.follows := db.follows - {pair};
      r := Ok(false);
    } else {
      db.follows := db.follows + {pair};
      CreateNotification(db, following.value.email, FollowNotice, follower.value.name, follower.value.email,
        follower.value.name + " started following you", None, None, notificationId);
      r := Ok(true);
    }
  }

  /** No one ever follows themselves through a toggle: the pair set stays free of self-follows. */
  predicate NoSelfFollows(follows: set<Follow>) {
    forall f :: f in follows ==> f.follower != f.following
  }

  lemma ToggleKeepsNoSelfFollows(follows: set<Follow>, follower: string, following: string)
    requires NoSelfFollows(follows) && follower != following
    ensures NoSelfFollows(Toggle(follows, Follow(follower, following)))
  {
  }

  /** `isFollowing`: false when either user is unknown. */
  function IsFollowing(users: seq<User>, follows: set<Follow>, targetUsername: string, currentUserEmail: string): (r: bool)
    ensures r <==>
      && FindByEmail(users, currentUserEmail).Some? && FindByName(users, targetUsername).Some?
      && Follow(FindByEmail(users, currentUserEmail).value.email, FindByName(users, targetUsername).value.email) in follows
  {
    match (FindByEmail(users, currentUserEmail), FindByName(users, targetUsername))
    case (Some(follower), Some(following)) => Follow(follower.email, following.email) in follows
    case _ => false
  }

  function FollowersOf(follows: set<Follow>, email: string): set<Follow> {
    set f | f in follows && f.following == email
  }

  function FollowedBy(follows: set<Follow>, email: string): set<Follow> {
    set f | f in follows && f.follower == email
  }

  /** `getFollowersCount`: 0 for an unknown name. */
  function FollowersCount(users: seq<User>, follows: set<Follow>, username: string): (r: nat)
    ensures FindByName(users, username).None? ==> r == 0
    ensures FindByName(users, username).Some? ==> r == |FollowersOf(follows, FindByName(users, username).value.email)|
  {
    match FindByName(users, username)
    case None => 0
    case Some(u) => |FollowersOf(follows, u.email)|
  }

  /** `getFollowingCount`: 0 for an unknown name. */
  function FollowingCount(users: seq<User>, follows: set<Follow>, username: string): (r: nat)
    ensures FindByName(users, username).None? ==> r == 0
    ensures FindByName(users, username).Some? ==> r == |FollowedBy(follows, FindByName(users, username).value.email)|
  {
    match FindByName(users, username)
    case None => 0
    case Some(u) => |FollowedBy(follows, u.email)|
  }

  /** A follow toggle moves the target's follower count and the caller's following count by one, together. */
  lemma ToggleFollowCounts(follows: set<Follow>, follower: string, following: string)
    ensures var pair := Follow(follower, following);
      var after := Toggle(follows, pair);
      && (pair !in follows ==>
            && |FollowersOf(after, following)| == |FollowersOf(follows, following)| + 1
            && |FollowedBy(after, follower)| == |FollowedBy(follows, follower)| + 1)
      && (pair in follows ==>
            && |FollowersOf(after, following)| + 1 == |FollowersOf(follows, following)|
            && |FollowedBy(after, follower)| + 1 == |FollowedBy(follows, follower)|)
  {
    var pair := Follow(follower, following);
    var after := Toggle(follows, pair);
    if pair in follows {
      assert FollowersOf(after, following) == FollowersOf(follows, following) - {pair};
      assert FollowedBy(after, follower) == FollowedBy(follows, follower) - {pair};
    } else {
      assert FollowersOf(after, following) == FollowersOf(follows, following) + {pair};
      assert FollowedBy(after, follower) == FollowedBy(follows, follower) + {pair};
    }
  }
}
