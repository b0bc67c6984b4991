/**
 * The backend's persistent state: one table per JPA repository of
 * `src/main/java/com/phoenix/repository/`, held as fields of one `Db` object
 * that the services update in place.
 *
 * A user is identified by their e-mail address, which registration keeps
 * unique; every entity that points at a user (a post's author, a like, a
 * follow, a notification's recipient, ...) holds that address. The other
 * entities are identified by a UUID, kept here as its text.
 */
module Database {
  import opened Wrappers
  import opened Text

  type Uuid = string

  datatype Role = RoleUser | RoleAdmin

  /** The enum constant's name, as `UserRole.name()` returns it. */
  function RoleName(role: Role): string {
    match role
    case RoleUser => "ROLE_USER"
    case RoleAdmin => "ROLE_ADMIN"
  }

  datatype User = User(email: string, name: string, role: Role, password: string)

  datatype PostStatus = Draft | Published

  datatype Post = Post(
    title: string,
    content: string,
    author: string,
    isPremium: bool,
    price: int,
    status: Option<PostStatus>,
    viewCount: nat,
    tags: seq<string>,
    series: Option<Uuid>,
    seriesOrder: int)

  datatype Like = Like(post: Uuid, user: string)
  datatype Bookmark = Bookmark(user: string, post: Uuid)
  datatype Follow = Follow(follower: string, following: string)
  datatype PostView = PostView(post: Uuid, user: string)

  datatype NotificationType = LikeNotice | CommentNotice | ReplyNotice | FollowNotice

  datatype Notification = Notification(
    recipient: string,
    kind: NotificationType,
    actorName: string,
    message: string,
    postId: Option<Uuid>,
    postTitle: Option<string>,
    isRead: bool)

  datatype Comment = Comment(content: string, post: Uuid, author: string, parent: Option<Uuid>)

  datatype PaymentStatus = Pending | Completed | Failed

  /** A payment row; the table is keyed by the gateway's order id. */
  datatype Payment = Payment(user: string, post: Uuid, paymentId: Option<string>, amount: int, status: PaymentStatus)

  /** A password-reset token row; the table is keyed by the raw token. Times are in seconds. */
  datatype ResetToken = ResetToken(user: string, expiresAt: int, used: bool)

  datatype Series = Series(name: string, description: string, author: string)

  /** The exception a service call ends with, carrying its message. */
  datatype Error =
    | PostNotFound(message: string)
    | UsernameNotFound(message: string)
    | Unauthorized(message: string)
    | IllegalArgument(message: string)
    | EmailAlreadyExists(message: string)
    | BadCredentials(message: string)
    | Runtime(message: string)

  /** All repositories. */
  class Db {
    var users: seq<User>
    var posts: map<Uuid, Post>
    var tags: seq<string>
    var likes: set<Like>
    var bookmarks: set<Bookmark>
    var follows: set<Follow>
    var views: set<PostView>
    var notifications: map<Uuid, Notification>
    var comments: map<Uuid, Comment>
    var payments: map<string, Payment>
    var resetTokens: map<string, ResetToken>
    var series: map<Uuid, Series>

    constructor ()
      ensures users == [] && posts == map[] && tags == []
      ensures likes == {} && bookmarks == {} && follows == {} && views == {}
      ensures notifications == map[] && comments == map[] && payments == map[]
      ensures resetTokens == map[] && series == map[]
    {
      users, posts, tags := [], map[], [];
      likes, bookmarks, follows, views := {}, {}, {}, {};
      notifications, comments, payments := map[], map[], map[];
      resetTokens, series := map[], map[];
    }
  }

  /** `findByEmail`: the first row with that address. */
  function FindByEmail(users: seq<User>, email: string): (r: Option<User>)
    ensures r.Some? ==> r.value in users && r.value.email == email
    ensures r.None? <==> forall i :: 0 <= i < |users| ==> users[i].email != email
  {
    if users == [] then None
    else if users[0].email == email then Some(users[0])
    else FindByEmail(users[1..], email)
  }

  /** SQL's `TRIM`, which strips spaces only. */
  function SqlTrim(s: string): string { Trim(s, c => c == ' ') }

  /** `findByName`: the first row whose trimmed name equals the trimmed argument. */
  function FindByName(users: seq<User>, name: string): (r: Option<User>)
    ensures r.Some? ==> r.value in users && SqlTrim(r.value.name) == SqlTrim(name)
    ensures r.None? <==> forall i :: 0 <= i < |users| ==> SqlTrim(users[i].name) != SqlTrim(name)
  {
    if users == [] then None
    else if SqlTrim(users[0].name) == SqlTrim(name) then Some(users[0])
    else FindByName(users[1..], name)
  }

  /** The row `FindByName` returns is the first whose trimmed name matches. */
  lemma {:induction false} FindByNameFirstMatch(users: seq<User>, name: string, i: nat)
    requires i < |users| && SqlTrim(users[i].name) == SqlTrim(name)
    requires forall k :: 0 <= k < i ==> SqlTrim(users[k].name) != SqlTrim(name)
    ensures FindByName(users, name) == Some(users[i])
  {
    if i > 0 {
      assert SqlTrim(users[0].name) != SqlTrim(name);
      assert users[1..][i - 1] == users[i];
      FindByNameFirstMatch(users[1..], name, i - 1);
    }
  }

  /** The display name of the user with that address ("" for none). */
  function NameOf(users: seq<User>, email: string): string {
    match FindByEmail(users, email)
    case Some(u) => u.name
    case None => ""
  }

  /** Registration's promise: no two rows share an address. */
  predicate UniqueEmails(users: seq<User>) {
    forall i, j :: 0 <= i < j < |users| ==> users[i].email != users[j].email
  }

  /** With unique addresses, the row `FindByEmail` picks is the only one with that address. */
  lemma {:induction false} FindByEmailUnique(users: seq<User>, k: nat)
    requires UniqueEmails(users) && k < |users|
    ensures FindByEmail(users, users[k].email) == Some(users[k])
  {
    if k > 0 {
      assert users[0].email != users[k].email;
      assert users[1..][k - 1] == users[k];
      FindByEmailUnique(users[1..], k - 1);
    }
  }

  /** `existsByPost_IdAndUser_IdAndStatus(post, user, "COMPLETED")`. */
  predicate HasCompletedPayment(payments: map<string, Payment>, post: Uuid, user: string) {
    exists k :: k in payments && payments[k].post == post && payments[k].user == user && payments[k].status == Completed
  }

  /** Insert `x` if absent, remove it if present: what the like, bookmark and follow toggles do. */
  function Toggle<T(!new)>(s: set<T>, x: T): (r: set<T>)
    ensures x in r <==> x !in s
    ensures forall y :: y != x ==> (y in r <==> y in s)
  {
    if x in s then s - {x} else s + {x}
  }

  /** Toggling twice restores the set. */
  lemma ToggleTwice<T(!new)>(s: set<T>, x: T)
    ensures Toggle(Toggle(s, x), x) == s
  {
  }

  /** Toggling changes the size by exactly one. */
  lemma ToggleCard<T(!new)>(s: set<T>, x: T)
    ensures x in s ==> |Toggle(s, x)| + 1 == |s|
    ensures x !in s ==> |Toggle(s, x)| == |s| + 1
  {
  }
}
