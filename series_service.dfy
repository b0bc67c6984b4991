/**
 * Series (`src/main/java/com/phoenix/service/SeriesService.java`): a named,
 * authored group of posts. Only the author may rename a series or delete it;
 * deleting either unlinks its posts, which become standalone, or deletes them
 * with everything that refers to them.
 */
module SeriesService {
  import opened Wrappers
  import opened Database
  import opened PostService

  datatype SeriesResponse = SeriesResponse(
    id: Uuid,
    name: string,
    description: string,
    authorName: string,
    authorEmail: string,
    postCount: nat)

  /** The posts linked to a series (`findBySeries_Id...`). */
  function PostsIn(posts: map<Uuid, Post>, seriesId: Uuid): set<Uuid> {
    set k | k in posts && posts[k].series == Some(seriesId)
  }

  /** `toResponse`: the series with the number of posts linked to it. */
  function ToResponse(users: seq<User>, posts: map<Uuid, Post>, series: map<Uuid, Series>, id: Uuid): (r: SeriesResponse)
    requires id in series
    ensures r.id == id && r.name == series[id].name && r.description == series[id].description
    ensures r.authorEmail == series[id].author
    ensures r.postCount == |PostsIn(posts, id)|
    ensures r.postCount == 0 <==> forall k :: k in posts ==> posts[k].series != Some(id)
  {
    var members := PostsIn(posts, id);
    assert forall k :: k in posts && posts[k].series == Some(id) ==> k in members;
    SeriesResponse(id, series[id].name, series[id].description, NameOf(users, series[id].author),
                   series[id].author, |members|)
  }

  /** The guard shared by update and both deletes: the series exists and the caller wrote it. */
  function CheckAuthor(series: map<Uuid, Series>, id: Uuid, userEmail: string, refusal: string): (r: Result<Series, Error>)
    ensures id !in series <==> r == Err(Runtime("Series not found"))
    ensures id in series && series[id].author != userEmail <==> r == Err(Unauthorized(refusal))
    ensures r.Ok? <==> id in series && series[id].author == userEmail
    ensures r.Ok? ==> r.value == series[id]
  {
    if id !in series then Err(Runtime("Series not found"))
    else if series[id].author != userEmail then Err(Unauthorized(refusal))
    else Ok(series[id])
  }

  /**
   * `updateSeries`: a missing series or a caller who is not its author throws
   * and changes nothing; otherwise only the name and description change.
   */
  method UpdateSeries(db: Db, id: Uuid, name: string, description: string, userEmail: string)
    returns (r: Result<SeriesResponse, Error>)
    modifies db`series
    ensures CheckAuthor(old(db.series), id, userEmail, "Not authorized to update this series").Err? ==>
      && r == Err(CheckAuthor(old(db.series), id, userEmail, "Not authorized to update this series").error)
      && db.series == old(db.series)
    ensures CheckAuthor(old(db.series), id, userEmail, "Not authorized to update this series").Ok? ==>
      && db.series == old(db.series)[id := old(db.series)[id].(name := name, description := description)]
      && r == Ok(ToResponse(db.users, db.posts, db.series, id))
  {
    if id !in db.series {
      return Err(Runtime("Series not found"));
    }
    var series := db.series[id];
    if series.author != userEmail {
      return Err(Unauthorized("Not authorized to update this series"));
    }
    db.series := db.series[id := series.(name := name, description := description)];
    r := Ok(ToResponse(db.users, db.posts, db.series, id));
  }

  /** A post taken out of its series. */
  function Unlinked(post: Post): Post {
    post.(series := None, seriesOrder := 0)
  }

  /**
   * The posts after `deleteSeries`: every member is unlinked, with order 0;
   * no post is removed and no other post changes.
   */
  function UnlinkSeries(posts: map<Uuid, Post>, id: Uuid): (r: map<Uuid, Post>)
    ensures r.Keys == posts.Keys
    ensures PostsIn(r, id) == {}
    ensures forall k :: k in posts && k in PostsIn(posts, id) ==> r[k].series.None? && r[k].seriesOrder == 0
    ensures forall k :: k in posts && k in PostsIn(posts, id) ==> r[k].(series := posts[k].series, seriesOrder := posts[k].seriesOrder) == posts[k]
    ensures forall k :: k in posts && k !in PostsIn(posts, id) ==> r[k] == posts[k]
  {
    map k | k in posts :: if posts[k].series == Some(id) then Unlinked(posts[k]) else posts[k]
  }

  /** Unlinking one series leaves every other series' post count as it was. */
  lemma UnlinkKeepsOtherCounts(posts: map<Uuid, Post>, id: Uuid, other: Uuid)
    requires other != id
    ensures PostsIn(UnlinkSeries(posts, id), other) == PostsIn(posts, other)
  {
  }

  /**
   * `deleteSeries`: a missing series or a caller who is not its author throws
   * and changes nothing; otherwise each member post is unlinked in turn and
   * the series is removed.
   */
  method DeleteSeries(db: Db, id: Uuid, userEmail: string) returns (r: Result<(), Error>)
    modifies db`posts, db`series
    ensures CheckAuthor(old(db.series), id, userEmail, "Not authorized to delete this series").Err? ==>
      && r == Err(CheckAuthor(old(db.series), id, userEmail, "Not authorized to delete this series").error)
      && db.posts == old(db.posts) && db.series == old(db.series)
    ensures CheckAuthor(old(db.series), id, userEmail, "Not authorized to delete this series").Ok? ==>
      && r == Ok(())
      && db.posts == UnlinkSeries(old(db.posts), id)
      && db.series == old(db.series) - {id}
  {
    if id !in db.series {
      return Err(Runtime("Series not found"));
    }
    if db.series[id].author != userEmail {
      return Err(Unauthorized("Not authorized to delete this series"));
    }
    var members := PostsIn(db.posts, id);
    ghost var linked := members;
    while members != {}
      invariant members <= linked
      invariant db.posts.Keys == old(db.posts).Keys
      invariant forall k :: k in db.posts ==>
        db.posts[k] == if k in linked && k !in members then Unlinked(old(db.posts)[k]) else old(db.posts)[k]
      invariant db.series == old(db.series)
      decreases members
    {
      var k :| k in members;
      db.posts := db.posts[k := Unlinked(db.posts[k])];
      members := members - {k};
    }
    db.series := db.series - {id};
    r := Ok(());
  }

  /** One more post through the cascade extends the deleted set by that post, table by table. */
  lemma CascadeStep(gone: set<Uuid>, k: Uuid,
                    bookmarks: set<Bookmark>, payments: map<string, Payment>, views: set<PostView>,
                    likes: set<Like>, comments: map<Uuid, Comment>, posts: map<Uuid, Post>)
    ensures KeepBookmarks(KeepBookmarks(bookmarks, gone), {k}) == KeepBookmarks(bookmarks, gone + {k})
    ensures KeepPayments(KeepPayments(payments, gone), {k}) == KeepPayments(payments, gone + {k})
    ensures KeepViews(KeepViews(views, gone), {k}) == KeepViews(views, gone + {k})
    ensures KeepLikes(KeepLikes(likes, gone), {k}) == KeepLikes(likes, gone + {k})
    ensures KeepComments(KeepComments(comments, gone), {k}) == KeepComments(comments, gone + {k})
    ensures KeepPosts(KeepPosts(posts, gone), {k}) == KeepPosts(posts, gone + {k})
  {
  }

  /**
   * `deleteSeriesWithPosts`: a missing series or a caller who is not its
   * author throws and changes nothing; otherwise every member post goes
   * through the post deletion cascade, then the series is removed.
   */
  method DeleteSeriesWithPosts(db: Db, id: Uuid, userEmail: string) returns (r: Result<(), Error>)
    modifies db`bookmarks, db`payments, db`views, db`likes, db`comments, db`posts, db`series
    ensures CheckAuthor(old(db.series), id, userEmail, "Not authorized to delete this series").Err? ==>
      && r == Err(CheckAuthor(old(db.series), id, userEmail, "Not authorized to delete this series").error)
      && unchanged(db)
    ensures CheckAuthor(old(db.series), id, userEmail, "Not authorized to delete this series").Ok? ==>
      && r == Ok(())
      && var gone := PostsIn(old(db.posts), id);
      && db.bookmarks == KeepBookmarks(old(db.bookmarks), gone)
      && db.payments == KeepPayments(old(db.payments), gone)
      && db.views == KeepViews(old(db.views), gone)
      && db.likes == KeepLikes(old(db.likes), gone)
      && db.comments == KeepComments(old(db.comments), gone)
      && db.posts == KeepPosts(old(db.posts), gone)
      && db.series == old(db.series) - {id}
  {
    if id !in db.series {
      return Err(Runtime("Series not found"));
    }
    if db.series[id].author != userEmail {
      return Err(Unauthorized("Not authorized to delete this series"));
    }
    var members := PostsIn(db.posts, id);
    ghost var linked := members;
    while members != {}
      invariant members <= linked
      invariant db.bookmarks == KeepBookmarks(old(db.bookmarks), linked - members)
      invariant db.payments == KeepPayments(old(db.payments), linked - members)
      invariant db.views == KeepViews(old(db.views), linked - members)
      invariant db.likes == KeepLikes(old(db.likes), linked - members)
      invariant db.comments == KeepComments(old(db.comments), linked - members)
      invariant db.posts == KeepPosts(old(db.posts), linked - members)
      invariant db.series == old(db.series)
      decreases members
    {
      var k :| k in members;
      ghost var gone := linked - members;
      CascadeStep(gone, k, old(db.bookmarks), old(db.payments), old(db.views), old(db.likes),
                  old(db.comments), old(db.posts));
      PostService.DeletePostRows(db, k);
      members := members - {k};
      assert linked - members == gone + {k};
    }
    db.series := db.series - {id};
    r := Ok(());
  }
}
