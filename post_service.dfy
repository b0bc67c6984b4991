/**
 * Posts (`src/main/java/com/phoenix/service/PostService.java`): the response a
 * reader sees (premium gating, reading time, per-viewer flags), unique view
 * counting, create / update / delete with their authorisation rules, and the
 * choice of listing query from the search text, tag filter and sort key.
 *
 * The signed-in principal is a parameter `viewer`: `Some(email)` for an
 * authenticated request, `None` for an anonymous one.
 */
module PostService {
  import opened Wrappers
  import opened Text
  import opened Database
  import opened PostTags
  import opened PostContent
  import LikeService
  import FollowService

  /** The fields of `PostResponse` that the service fills in. */
  datatype PostResponse = PostResponse(
    id: Uuid,
    title: string,
    content: string,
    authorName: string,
    authorEmail: string,
    commentCount: nat,
    likeCount: nat,
    likedByCurrentUser: bool,
    isPremium: bool,
    price: int,
    paidByCurrentUser: bool,
    author: bool,
    viewCount: nat,
    readingTimeMinutes: nat,
    tags: seq<string>,
    status: string,
    bookmarkedByCurrentUser: bool)

  /** The request body `createPost` and `updatePost` read; `tags` is `None` when the list is null. */
  datatype PostRequest = PostRequest(
    title: string,
    content: string,
    isPremium: bool,
    price: int,
    saveAsDraft: bool,
    tags: Option<seq<Option<string>>>)

  /** The caller's user row: only an authenticated principal that names a stored user has one. */
  function CurrentUser(users: seq<User>, viewer: Option<string>): (r: Option<User>)
    ensures r.Some? <==> viewer.Some? && FindByEmail(users, viewer.value).Some?
    ensures r.Some? ==> r.value.email == viewer.value && r.value in users
  {
    if viewer.None? then None else FindByEmail(users, viewer.value)
  }

  /** The ids of a post's comments, replies included (`post.getComments()`). */
  function CommentsOn(comments: map<Uuid, Comment>, post: Uuid): set<Uuid> {
    set k | k in comments && comments[k].post == post
  }

  /** The status name reported for a post; a missing status reads as published. */
  function StatusName(status: Option<PostStatus>): (r: string)
    ensures r == "DRAFT" <==> status == Some(Draft)
  {
    match status
    case Some(Draft) => "DRAFT"
    case _ => "PUBLISHED"
  }

  /**
   * `convertToResponse`: the author flag and the payment flag are computed
   * for a known caller only, the payment flag only for a premium post the
   * caller did not write; the content is blanked exactly when the post is
   * premium and the caller neither wrote nor bought it; the reading time is
   * computed from the full content whoever asks.
   */
  function ConvertToResponse(db: Db, id: Uuid, viewer: Option<string>): (r: PostResponse)
    reads db
    requires id in db.posts
    ensures var post := db.posts[id];
      var known := CurrentUser(db.users, viewer).Some?;
      && (r.author <==> known && post.author == viewer.value)
      && (r.paidByCurrentUser <==> known && post.isPremium && !r.author && HasCompletedPayment(db.payments, id, viewer.value))
      && r.content == (if post.isPremium && !r.author && !r.paidByCurrentUser then "" else post.content)
      && (r.likedByCurrentUser <==> known && Like(id, viewer.value) in db.likes)
      && (r.bookmarkedByCurrentUser <==> known && Bookmark(viewer.value, id) in db.bookmarks)
      && r.likeCount == LikeService.LikeCount(db.likes, id)
      && r.readingTimeMinutes == ReadingTime(WordCount(post.content))
      && r.readingTimeMinutes >= 1
      && (r.status == "DRAFT" <==> post.status == Some(Draft))
  {
    var post := db.posts[id];
    var current := CurrentUser(db.users, viewer);
    var liked := current.Some? && Like(id, current.value.email) in db.likes;
    var isAuthor := current.Some? && post.author == current.value.email;
    var paid := current.Some? && post.isPremium && !isAuthor && HasCompletedPayment(db.payments, id, current.value.email);
    var bookmarked := current.Some? && Bookmark(current.value.email, id) in db.bookmarks;
    var content := if post.isPremium && !isAuthor && !paid then "" else post.content;
    PostResponse(
      id, post.title, content, NameOf(db.users, post.author), post.author,
      |CommentsOn(db.comments, id)|, LikeService.LikeCount(db.likes, id), liked,
      post.isPremium, post.price, paid, isAuthor, post.viewCount,
      ReadingTime(WordCount(post.content)), post.tags, StatusName(post.status), bookmarked)
  }

  /**
   * The premium gate, both ways: a premium post's non-empty content reaches
   * the caller exactly when the caller is its author or holds a completed
   * payment for it; an anonymous caller never sees it; free posts are never
   * blanked.
   */
  lemma PremiumGate(db: Db, id: Uuid, viewer: Option<string>)
    requires id in db.posts
    ensures var post := db.posts[id];
      var r := ConvertToResponse(db, id, viewer);
      && (r.content == post.content || r.content == "")
      && (!post.isPremium ==> r.content == post.content)
      && (post.isPremium && post.content != "" ==>
            (r.content == post.content <==>
               && CurrentUser(db.users, viewer).Some?
               && (post.author == viewer.value || HasCompletedPayment(db.payments, id, viewer.value))))
      && (post.isPremium && viewer.None? ==> r.content == "")
  {
  }

  /** Everything in a response but the viewer flags and the gated content is the same for every caller. */
  lemma ResponseIgnoresViewer(db: Db, id: Uuid, a: Option<string>, b: Option<string>)
    requires id in db.posts
    ensures var ra := ConvertToResponse(db, id, a);
      var rb := ConvertToResponse(db, id, b);
      ra.(content := "", author := false, paidByCurrentUser := false, likedByCurrentUser := false,
          bookmarkedByCurrentUser := false)
      == rb.(content := "", author := false, paidByCurrentUser := false, likedByCurrentUser := false,
             bookmarkedByCurrentUser := false)
  {
  }

  /** The recorded viewers of a post. */
  function ViewersOf(views: set<PostView>, id: Uuid): set<PostView> {
    set v | v in views && v.post == id
  }

  /** Each post's `viewCount` is its number of distinct recorded viewers. */
  predicate ViewsConsistent(posts: map<Uuid, Post>, views: set<PostView>) {
    forall id :: id in posts ==> posts[id].viewCount == |ViewersOf(views, id)|
  }

  /** The view update of `getPostById` for a known caller: a first view is recorded and counted. */
  function CountView(posts: map<Uuid, Post>, views: set<PostView>, id: Uuid, user: string): (r: (map<Uuid, Post>, set<PostView>))
    requires id in posts
    ensures r.0.Keys == posts.Keys && r.1 == views + {PostView(id, user)}
    ensures forall k :: k in posts && k != id ==> r.0[k] == posts[k]
    ensures r.0[id] == posts[id].(viewCount := r.0[id].viewCount)
    ensures r.0[id].viewCount == posts[id].viewCount + (if PostView(id, user) in views then 0 else 1)
  {
    if PostView(id, user) in views then (posts, views)
    else (posts[id := posts[id].(viewCount := posts[id].viewCount + 1)], views + {PostView(id, user)})
  }

  /** Counting a view keeps every post's count equal to its number of distinct viewers. */
  lemma CountViewKeepsConsistent(posts: map<Uuid, Post>, views: set<PostView>, id: Uuid, user: string)
    requires id in posts && ViewsConsistent(posts, views)
    ensures var r := CountView(posts, views, id, user); ViewsConsistent(r.0, r.1)
  {
    var v := PostView(id, user);
    var r := CountView(posts, views, id, user);
    forall k | k in r.0
      ensures r.0[k].viewCount == |ViewersOf(r.1, k)|
    {
      if k == id && v !in views {
        assert ViewersOf(r.1, k) == ViewersOf(views, k) + {v};
      } else {
        assert ViewersOf(r.1, k) == ViewersOf(views, k);
      }
    }
  }

  /** The same caller viewing again counts nothing more. */
  lemma CountViewOnce(posts: map<Uuid, Post>, views: set<PostView>, id: Uuid, user: string)
    requires id in posts
    ensures var r := CountView(posts, views, id, user);
      CountView(r.0, r.1, id, user) == r
  {
  }

  /**
   * `getPostById`: a missing post throws; a known caller's first view is
   * recorded and counted; an anonymous or unknown caller changes nothing.
   */
  method GetPostById(db: Db, id: Uuid, viewer: Option<string>) returns (r: Result<PostResponse, Error>)
    modifies db`posts, db`views
    ensures id !in old(db.posts) ==>
      && r == Err(PostNotFound("Post not found with id: " + id))
      && db.posts == old(db.posts) && db.views == old(db.views)
    ensures id in old(db.posts) && CurrentUser(db.users, viewer).None? ==>
      db.posts == old(db.posts) && db.views == old(db.views)
    ensures id in old(db.posts) && CurrentUser(db.users, viewer).Some? ==>
      (db.posts, db.views) == CountView(old(db.posts), old(db.views), id, viewer.value)
    ensures id in old(db.posts) ==> id in db.posts && r == Ok(ConvertToResponse(db, id, viewer))
  {
    if id !in db.posts {
      return Err(PostNotFound("Post not found with id: " + id));
    }
    var current := CurrentUser(db.users, viewer);
    if current.Some? {
      var view := PostView(id, current.value.email);
      if view !in db.views {
        db.views := db.views + {view};
        var post := db.posts[id];
        db.posts := db.posts[id := post.(viewCount := post.viewCount + 1)];
      }
    }
    r := Ok(ConvertToResponse(db, id, viewer));
  }

  /** The status a request asks for. */
  function StatusFor(saveAsDraft: bool): (s: PostStatus)
    ensures s == Draft <==> saveAsDraft
  {
    if saveAsDraft then Draft else Published
  }

  /** The tag names a request resolves to: none unless the list is present and non-empty. */
  function RequestedTags(request: PostRequest): seq<string> {
    if request.tags.Some? && request.tags.value != [] then ResolveTagNames(request.tags.value) else []
  }

  /** `resolveOrCreateTags` as the post's new tag list, creating the missing tag rows. */
  method ResolveOrCreateTags(db: Db, request: PostRequest) returns (names: seq<string>)
    modifies db`tags
    ensures names == RequestedTags(request)
    ensures db.tags == old(db.tags) + Absent(old(db.tags), names)
    ensures Distinct(old(db.tags)) ==> Distinct(db.tags)
    ensures forall x :: x in names ==> x in db.tags
  {
    names := [];
    if request.tags.Some? && request.tags.value != [] {
      names := ResolveTagNames(request.tags.value);
      ResolvedNamesShape(request.tags.value);
      FindOrCreateTags(db, names);
    } else {
      assert Absent(db.tags, []) == [];
    }
  }

  /**
   * `createPost`: an unknown author throws; otherwise the post is stored
   * under the fresh id, as a draft exactly when the request asks for one,
   * with no views and the resolved tags.
   */
  method CreatePost(db: Db, request: PostRequest, userEmail: string, newId: Uuid) returns (r: Result<PostResponse, Error>)
    requires newId !in db.posts
    modifies db`posts, db`tags
    ensures FindByEmail(db.users, userEmail).None? ==>
      && r == Err(UsernameNotFound("User not found"))
      && db.posts == old(db.posts) && db.tags == old(db.tags)
    ensures FindByEmail(db.users, userEmail).Some? ==>
      var tags := RequestedTags(request);
      && db.tags == old(db.tags) + Absent(old(db.tags), tags)
      && db.posts == old(db.posts)[newId := Post(request.title, request.content, userEmail, request.isPremium,
                                                request.price, Some(StatusFor(request.saveAsDraft)), 0, tags, None, 0)]
      && r == Ok(ConvertToResponse(db, newId, Some(userEmail)))
    ensures Distinct(old(db.tags)) ==> Distinct(db.tags)
  {
    var author := FindByEmail(db.users, userEmail);
    if author.None? {
      return Err(UsernameNotFound("User not found"));
    }
    var tags := ResolveOrCreateTags(db, request);
    var post := Post(request.title, request.content, author.value.email, request.isPremium,
                     request.price, Some(StatusFor(request.saveAsDraft)), 0, tags, None, 0);
    db.posts := db.posts[newId := post];
    r := Ok(ConvertToResponse(db, newId, Some(userEmail)));
  }

  /** The edit `updatePost` makes: the request's fields, its status, and a wholly replaced tag list. */
  function Edited(post: Post, request: PostRequest): (r: Post)
    ensures r.author == post.author && r.viewCount == post.viewCount
    ensures r.series == post.series && r.seriesOrder == post.seriesOrder
    ensures r.status == Some(Draft) <==> request.saveAsDraft
    ensures r.tags == RequestedTags(request)
  {
    post.(title := request.title, content := request.content, isPremium := request.isPremium,
          price := request.price, status := Some(StatusFor(request.saveAsDraft)), tags := RequestedTags(request))
  }

  /**
   * `updatePost`: a missing post or a caller who is not its author throws and
   * changes nothing; otherwise the post becomes `Edited(post, request)`.
   */
  method UpdatePost(db: Db, id: Uuid, request: PostRequest, userEmail: string) returns (r: Result<PostResponse, Error>)
    modifies db`posts, db`tags
    ensures id !in old(db.posts) ==>
      && r == Err(PostNotFound("Post not found with id: " + id))
      && db.posts == old(db.posts) && db.tags == old(db.tags)
    ensures id in old(db.posts) && old(db.posts)[id].author != userEmail ==>
      && r == Err(Unauthorized("You are not authorized to update this post"))
      && db.posts == old(db.posts) && db.tags == old(db.tags)
    ensures id in old(db.posts) && old(db.posts)[id].author == userEmail ==>
      && db.tags == old(db.tags) + Absent(old(db.tags), RequestedTags(request))
      && db.posts == old(db.posts)[id := Edited(old(db.posts)[id], request)]
      && r == Ok(ConvertToResponse(db, id, Some(userEmail)))
    ensures Distinct(old(db.tags)) ==> Distinct(db.tags)
  {
    if id !in db.posts {
      return Err(PostNotFound("Post not found with id: " + id));
    }
    var post := db.posts[id];
    if post.author != userEmail {
      return Err(Unauthorized("You are not authorized to update this post"));
    }
    var tags := ResolveOrCreateTags(db, request);
    post := post.(title := request.title, content := request.content, isPremium := request.isPremium,
                  price := request.price, status := Some(StatusFor(request.saveAsDraft)), tags := tags);
    db.posts := db.posts[id := post];
    r := Ok(ConvertToResponse(db, id, Some(userEmail)));
  }

  /** The rows of each table that survive the deletion of the posts in `gone`. */
  function KeepBookmarks(s: set<Bookmark>, gone: set<Uuid>): set<Bookmark> { set b | b in s && b.post !in gone }
  function KeepViews(s: set<PostView>, gone: set<Uuid>): set<PostView> { set v | v in s && v.post !in gone }
  function KeepLikes(s: set<Like>, gone: set<Uuid>): set<Like> { set l | l in s && l.post !in gone }
  function KeepPayments(m: map<string, Payment>, gone: set<Uuid>): map<string, Payment> {
    map k | k in m && m[k].post !in gone :: m[k]
  }
  function KeepComments(m: map<Uuid, Comment>, gone: set<Uuid>): map<Uuid, Comment> {
    map k | k in m && m[k].post !in gone :: m[k]
  }
  function KeepPosts(m: map<Uuid, Post>, gone: set<Uuid>): map<Uuid, Post> {
    map k | k in m && k !in gone :: m[k]
  }

  /**
   * The cascade of `deletePost`: the post's bookmarks, payments, views,
   * likes, replies and comments go, then the post; every other row stays.
   */
  method DeletePostRows(db: Db, id: Uuid)
    modifies db`bookmarks, db`payments, db`views, db`likes, db`comments, db`posts
    ensures db.bookmarks == KeepBookmarks(old(db.bookmarks), {id})
    ensures db.payments == KeepPayments(old(db.payments), {id})
    ensures db.views == KeepViews(old(db.views), {id})
    ensures db.likes == KeepLikes(old(db.likes), {id})
    ensures db.comments == KeepComments(old(db.comments), {id})
    ensures db.posts == KeepPosts(old(db.posts), {id})
  {
    db.bookmarks := set b | b in db.bookmarks && b.post != id;
    db.payments := map k | k in db.payments && db.payments[k].post != id :: db.payments[k];
    db.views := set v | v in db.views && v.post != id;
    db.likes := set l | l in db.likes && l.post != id;
    db.comments := map k | k in db.comments && (db.comments[k].parent.None? || db.comments[k].post != id) :: db.comments[k];
    db.comments := map k | k in db.comments && db.comments[k].post != id :: db.comments[k];
    db.posts := db.posts - {id};
  }

  /** Who may delete a post: its author or an administrator. */
  predicate MayDelete(post: Post, caller: User) {
    post.author == caller.email || caller.role == RoleAdmin
  }

  /**
   * `deletePost`: a missing post or caller throws; a caller who is neither
   * the author nor an administrator is refused; otherwise the cascade runs.
   */
  method DeletePost(db: Db, id: Uuid, userEmail: string) returns (r: Result<(), Error>)
    modifies db`bookmarks, db`payments, db`views, db`likes, db`comments, db`posts
    ensures id !in old(db.posts) ==> r == Err(PostNotFound("Post not found with id: " + id))
    ensures id in old(db.posts) && FindByEmail(db.users, userEmail).None? ==> r == Err(UsernameNotFound("User not found"))
    ensures id in old(db.posts) && FindByEmail(db.users, userEmail).Some? ==>
      && (MayDelete(old(db.posts)[id], FindByEmail(db.users, userEmail).value) <==> r.Ok?)
      && (r.Err? ==> r == Err(Unauthorized("You are not authorized to delete this post")))
    ensures r.Err? ==> unchanged(db)
    ensures r.Ok? ==>
      && db.posts == old(db.posts) - {id} && id !in db.posts
      && (forall b :: b in db.bookmarks <==> b in old(db.bookmarks) && b.post != id)
      && (forall l :: l in db.likes <==> l in old(db.likes) && l.post != id)
      && (forall v :: v in db.views <==> v in old(db.views) && v.post != id)
      && (forall k :: k in db.payments <==> k in old(db.payments) && old(db.payments)[k].post != id)
      && (forall k :: k in db.comments <==> k in old(db.comments) && old(db.comments)[k].post != id)
  {
    if id !in db.posts {
      return Err(PostNotFound("Post not found with id: " + id));
    }
    var current := FindByEmail(db.users, userEmail);
    if current.None? {
      return Err(UsernameNotFound("User not found"));
    }
    var post := db.posts[id];
    var isAuthor := post.author == userEmail;
    var isAdmin := current.value.role == RoleAdmin;
    if !isAuthor && !isAdmin {
      return Err(Unauthorized("You are not authorized to delete this post"));
    }
    DeletePostRows(db, id);
    r := Ok(());
  }

  /** The listing orders; pagination itself is the database's. */
  datatype Order = MostLiked | Newest | Oldest

  /** `"mostLiked".equalsIgnoreCase(sort)`; a null sort matches nothing. */
  predicate IsMostLiked(sort: Option<string>) { sort.Some? && EqualsIgnoreCase("mostLiked", sort.value) }

  /** `"oldest".equalsIgnoreCase(sort)`. */
  predicate IsOldest(sort: Option<string>) { sort.Some? && EqualsIgnoreCase("oldest", sort.value) }

  /** The order a sort key selects: most liked first, else oldest, else newest. */
  function SortOrder(sort: Option<string>): (o: Order)
    ensures o == MostLiked <==> IsMostLiked(sort)
    ensures o == Oldest <==> !IsMostLiked(sort) && IsOldest(sort)
    ensures o == Newest <==> !IsMostLiked(sort) && !IsOldest(sort)
  {
    if IsMostLiked(sort) then MostLiked else if IsOldest(sort) then Oldest else Newest
  }

  /** A listing query: an optional title fragment, an optional tag name, and the order. */
  datatype PostQuery = PostQuery(title: Option<string>, tag: Option<string>, order: Order)

  /** The tag filter: absent when null or blank after trimming, else trimmed and lower-cased. */
  function TagFilter(tag: Option<string>): (r: Option<string>)
    ensures r.None? <==> tag.None? || JavaTrim(tag.value) == ""
    ensures r.Some? ==>
      && r.value != [] && IsLowerCase(r.value)
      && !IsJavaTrimmed(r.value[0]) && !IsJavaTrimmed(r.value[|r.value| - 1])
      && EqualsIgnoreCase(r.value, JavaTrim(tag.value))
  {
    if tag.Some? && JavaTrim(tag.value) != "" then
      var t := JavaTrim(tag.value);
      TrimLeavesNoPadding(tag.value, IsJavaTrimmed);
      assert Lower(Lower(t)) == Lower(t);
      Some(Lower(t))
    else None
  }

  /** A tag name already in filter form selects the same filter: padding and case never matter twice. */
  lemma TagFilterCanonical(tag: string)
    requires TagFilter(Some(tag)).Some?
    ensures TagFilter(TagFilter(Some(tag))) == TagFilter(Some(tag))
  {
    var t := JavaTrim(tag);
    var l := Lower(t);
    TrimLeavesNoPadding(tag, IsJavaTrimmed);
    assert l != [] ==> !IsJavaTrimmed(l[0]) && !IsJavaTrimmed(l[|l| - 1]);
    TrimOfUnpadded(l, IsJavaTrimmed);
    assert Lower(l) == l;
  }

  /** `getAllPosts(page, size, sort, tag)`. */
  function GetAllPostsQuery(sort: Option<string>, tag: Option<string>): (q: PostQuery)
    ensures q.order == SortOrder(sort)
    ensures forall p :: Listed(q, p) <==>
      p.status == Some(Published) && (TagFilter(tag).Some? ==> TagFilter(tag).value in p.tags)
  {
    PostQuery(None, TagFilter(tag), SortOrder(sort))
  }

  /** `searchPosts(query, page, size, sort, tag)`: a null or blank query is `getAllPosts`; otherwise the trimmed query filters titles. */
  function SearchPostsQuery(query: Option<string>, sort: Option<string>, tag: Option<string>): (q: PostQuery)
    ensures query.None? || JavaTrim(query.value) == "" ==> q == GetAllPostsQuery(sort, tag)
    ensures query.Some? && JavaTrim(query.value) != "" ==>
      q == GetAllPostsQuery(sort, tag).(title := Some(JavaTrim(query.value)))
  {
    if query.None? || JavaTrim(query.value) == "" then GetAllPostsQuery(sort, tag)
    else PostQuery(Some(JavaTrim(query.value)), TagFilter(tag), SortOrder(sort))
  }

  /** `getTrendingPosts`: all published posts by likes. */
  function TrendingQuery(): (q: PostQuery)
    ensures q.order == MostLiked
    ensures forall p :: Listed(q, p) <==> p.status == Some(Published)
  {
    PostQuery(None, None, MostLiked)
  }

  /** Whether a post belongs in a listing: every listing query is restricted to published posts. */
  predicate Listed(q: PostQuery, p: Post) {
    && p.status == Some(Published)
    && (q.title.Some? ==> TitleMatches(q.order, p.title, q.title.value))
    && (q.tag.Some? ==> q.tag.value in p.tags)
  }

  /**
   * The title filter. The derived `...TitleContainingIgnoreCase` queries
   * escape the fragment, so it is a literal case-insensitive substring; the
   * most-liked queries write `lower(p.title) like lower(concat('%', :title, '%'))`,
   * so `%` and `_` in the fragment are wildcards there.
   */
  predicate TitleMatches(order: Order, title: string, fragment: string) {
    if order == MostLiked then LikeMatches(Lower("%" + fragment + "%"), Lower(title))
    else Contains(Lower(title), Lower(fragment))
  }

  /** For a fragment without `%` or `_`, every sort order filters titles alike. */
  lemma MostLikedAgreesWithoutWildcards(title: string, fragment: string, order: Order)
    requires NoWildcards(fragment)
    ensures TitleMatches(MostLiked, title, fragment) <==> TitleMatches(order, title, fragment)
  {
    var f := Lower(fragment);
    assert Lower("%" + fragment + "%") == "%" + f + "%";
    assert NoWildcards(f);
    LikeIsContains(f, Lower(title));
  }

  /**
   * A search for "%" sorted by likes lists every published post, while the
   * same search in the default order lists only titles containing a '%'.
   */
  lemma PercentSearchByLikesListsAll(p: Post)
    requires p.status == Some(Published)
    ensures Listed(SearchPostsQuery(Some("%"), Some("mostLiked"), None), p)
    ensures Listed(SearchPostsQuery(Some("%"), None, None), p) <==> Contains(Lower(p.title), "%")
  {
    assert JavaTrim("%") == "%" by { TrimOfUnpadded("%", IsJavaTrimmed); }
    assert Lower("mostLiked") == Lower("mostLiked");
    assert Lower("%" + "%" + "%") == "%%%";
    PercentMatchesAll(Lower(p.title));
    assert LikeMatches("%%", Lower(p.title));
    assert LikeMatches("%%%", Lower(p.title));
    assert Lower("%") == "%";
  }

  /** A search only ever narrows the listing it would otherwise be, and never lists a draft. */
  lemma SearchNarrowsListing(query: Option<string>, sort: Option<string>, tag: Option<string>, p: Post)
    requires Listed(SearchPostsQuery(query, sort, tag), p)
    ensures Listed(GetAllPostsQuery(sort, tag), p)
    ensures p.status == Some(Published)
  {
  }

  /** The header of a `PagedResponse`. */
  datatype PageInfo = PageInfo(pageNumber: int, pageSize: int, totalElements: nat, totalPages: nat, first: bool, last: bool)

  /** What `getFollowingFeed` returns: a fixed empty page, or the posts of the followed authors. */
  datatype Feed = EmptyPage(info: PageInfo) | PostsBy(authors: set<string>)

  /**
   * `getFollowingFeed`: an unknown caller throws; a caller who follows no one
   * gets an empty first-and-last page of zero pages; otherwise the feed is
   * every post by someone the caller follows.
   */
  function FollowingFeed(users: seq<User>, follows: set<Follow>, page: int, size: int, userEmail: string): (r: Result<Feed, Error>)
    ensures FindByEmail(users, userEmail).None? <==> r == Err(UsernameNotFound("User not found"))
    ensures r.Ok? ==> (r.value.EmptyPage? <==> FollowService.FollowedBy(follows, userEmail) == {})
    ensures r.Ok? && r.value.EmptyPage? ==> r.value.info == PageInfo(page, size, 0, 0, true, true)
    ensures r.Ok? && r.value.PostsBy? ==> forall a :: a in r.value.authors <==> Follow(userEmail, a) in follows
  {
    if FindByEmail(users, userEmail).None? then Err(UsernameNotFound("User not found"))
    else
      var authors := set f | f in follows && f.follower == userEmail :: f.following;
      assert forall a :: Follow(userEmail, a) in follows ==> a in authors;
      if authors == {} then
        assert FollowService.FollowedBy(follows, userEmail) == {};
        Ok(EmptyPage(PageInfo(page, size, 0, 0, true, true)))
      else
        var f :| f in authors;
        assert Follow(userEmail, f) in FollowService.FollowedBy(follows, userEmail);
        Ok(PostsBy(authors))
  }

  /** Whether a post appears in a `PostsBy` feed: its author is followed, whatever its status. */
  predicate InFeed(authors: set<string>, p: Post) {
    p.author in authors
  }

  /**
   * The feed holds every post, draft or published, whose author the caller
   * follows, and no other.
   */
  lemma FeedListsDraftsOfFollowed(users: seq<User>, follows: set<Follow>, page: int, size: int, userEmail: string, p: Post)
    requires FollowingFeed(users, follows, page, size, userEmail).Ok?
    requires FollowingFeed(users, follows, page, size, userEmail).value.PostsBy?
    ensures var authors := FollowingFeed(users, follows, page, size, userEmail).value.authors;
      && (InFeed(authors, p) <==> Follow(userEmail, p.author) in follows)
      && (InFeed(authors, p) <==> InFeed(authors, p.(status := Some(Draft))))
  {
  }
}
