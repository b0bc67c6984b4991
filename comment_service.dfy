/**
 * Comments (`src/main/java/com/phoenix/service/CommentService.java`): a
 * comment is top-level or a reply to another comment; creating one notifies
 * the parent comment's author or the post's author; only a comment's author
 * may edit or delete it; a response nests replies one level deep.
 */
module CommentService {
  import opened Wrappers
  import opened Text
  import opened Database
  import opened NotificationService

  datatype CommentResponse = CommentResponse(
    id: Uuid,
    content: string,
    authorName: string,
    authorEmail: string,
    parentId: Option<Uuid>,
    replies: seq<CommentResponse>)

  /** `replyIds` is the comment's reply collection: each names a stored comment whose parent is `id`. */
  predicate RepliesOf(comments: map<Uuid, Comment>, id: Uuid, replyIds: seq<Uuid>) {
    forall i :: 0 <= i < |replyIds| ==> replyIds[i] in comments && comments[replyIds[i]].parent == Some(id)
  }

  /** A response with its replies one level below it and nothing below them. */
  predicate OneLevel(r: CommentResponse) {
    forall i :: 0 <= i < |r.replies| ==> r.replies[i].parentId == Some(r.id) && r.replies[i].replies == []
  }

  /** The response for a reply: its parent is the enclosing comment, and it carries no replies of its own. */
  function ReplyResponse(users: seq<User>, comments: map<Uuid, Comment>, parent: Uuid, id: Uuid): (r: CommentResponse)
    requires id in comments
    ensures r.id == id && r.parentId == Some(parent) && r.replies == []
    ensures r.content == comments[id].content && r.authorEmail == comments[id].author
  {
    var c := comments[id];
    CommentResponse(id, c.content, NameOf(users, c.author), c.author, Some(parent), [])
  }

  function ReplyResponses(users: seq<User>, comments: map<Uuid, Comment>, parent: Uuid, replyIds: seq<Uuid>): (r: seq<CommentResponse>)
    requires forall i :: 0 <= i < |replyIds| ==> replyIds[i] in comments
    ensures |r| == |replyIds|
    ensures forall i :: 0 <= i < |r| ==> r[i] == ReplyResponse(users, comments, parent, replyIds[i])
  {
    if replyIds == [] then []
    else [ReplyResponse(users, comments, parent, replyIds[0])] + ReplyResponses(users, comments, parent, replyIds[1..])
  }

  /**
   * `convertToResponse`: the comment with its own parent id, and each reply,
   * in collection order, flattened to a leaf that names this comment as parent.
   */
  function ConvertToResponse(users: seq<User>, comments: map<Uuid, Comment>, id: Uuid, replyIds: seq<Uuid>): (r: CommentResponse)
    requires id in comments && RepliesOf(comments, id, replyIds)
    ensures r.id == id && r.parentId == comments[id].parent && r.content == comments[id].content
    ensures r.authorEmail == comments[id].author
    ensures |r.replies| == |replyIds|
    ensures forall i :: 0 <= i < |replyIds| ==> r.replies[i].id == replyIds[i]
    ensures OneLevel(r)
  {
    var c := comments[id];
    CommentResponse(id, c.content, NameOf(users, c.author), c.author, c.parent, ReplyResponses(users, comments, id, replyIds))
  }

  /** A reply listed under a comment is exactly as its own response would show it, bar its replies. */
  lemma ReplyMatchesOwnResponse(users: seq<User>, comments: map<Uuid, Comment>, id: Uuid, replyIds: seq<Uuid>, i: nat)
    requires id in comments && RepliesOf(comments, id, replyIds) && i < |replyIds|
    ensures ConvertToResponse(users, comments, id, replyIds).replies[i]
      == ConvertToResponse(users, comments, replyIds[i], []).(replies := [])
  {
  }

  /**
   * `getCommentsByPostId`: a missing post throws; otherwise the top-level
   * comments on the post (ordering and paging are the database's).
   */
  function GetCommentsByPostId(posts: map<Uuid, Post>, comments: map<Uuid, Comment>, postId: Uuid): (r: Result<set<Uuid>, Error>)
    ensures postId !in posts <==> r == Err(PostNotFound("Post not found with id: " + postId))
    ensures r.Ok? ==> forall k :: k in r.value <==> k in comments && comments[k].post == postId && comments[k].parent.None?
  {
    if postId !in posts then Err(PostNotFound("Post not found with id: " + postId))
    else Ok(set k | k in comments && comments[k].post == postId && comments[k].parent.None?)
  }

  /**
   * The notification a new comment sends: a reply notifies the parent
   * comment's author with REPLY, a top-level comment the post's author with
   * COMMENT; both carry the post's id and title and start unread.
   */
  function CommentNotification(post: Post, postId: Uuid, parent: Option<Comment>, author: User): (n: Notification)
    ensures n.kind == ReplyNotice <==> parent.Some?
    ensures n.kind == CommentNotice <==> parent.None?
    ensures n.recipient == if parent.Some? then parent.value.author else post.author
    ensures n.actorName == author.name && !n.isRead
    ensures n.postId == Some(postId) && n.postTitle == Some(post.title)
  {
    match parent
    case Some(p) =>
      Notification(p.author, ReplyNotice, author.name, author.name + " replied to your comment",
                   Some(postId), Some(post.title), false)
    case None =>
      Notification(post.author, CommentNotice, author.name,
                   author.name + " commented on your post \"" + post.title + "\"",
                   Some(postId), Some(post.title), false)
  }

  /**
   * `createComment`: the post, then the author, then the parent (when one is
   * named) must exist, and a failure at any step stores nothing; otherwise
   * the comment is stored under the fresh id and its notification is sent,
   * unless the recipient is the commenter.
   */
  method CreateComment(db: Db, postId: Uuid, content: string, parentId: Option<Uuid>, userEmail: string,
                       newId: Uuid, notificationId: Uuid) returns (r: Result<CommentResponse, Error>)
    requires newId !in db.comments && notificationId !in db.notifications
    modifies db`comments, db`notifications
    ensures postId !in db.posts ==> r == Err(PostNotFound("Post not found with id: " + postId))
    ensures postId in db.posts && FindByEmail(db.users, userEmail).None? ==> r == Err(UsernameNotFound("User not found"))
    ensures postId in db.posts && FindByEmail(db.users, userEmail).Some? && parentId.Some? && parentId.value !in old(db.comments) ==>
      r == Err(Runtime("Parent comment not found"))
    ensures r.Err? ==> db.comments == old(db.comments) && db.notifications == old(db.notifications)
    ensures r.Ok? ==>
      && postId in db.posts && FindByEmail(db.users, userEmail).Some?
      && (parentId.Some? ==> parentId.value in old(db.comments))
      && var author := FindByEmail(db.users, userEmail).value;
      var parent := if parentId.Some? then Some(old(db.comments)[parentId.value]) else None;
      var notice := CommentNotification(db.posts[postId], postId, parent, author);
      && db.comments == old(db.comments)[newId := Comment(content, postId, userEmail, parentId)]
      && (EqualsIgnoreCase(notice.recipient, userEmail) ==> db.notifications == old(db.notifications))
      && (!EqualsIgnoreCase(notice.recipient, userEmail) ==>
            db.notifications == old(db.notifications)[notificationId := notice])
      && r.value == ConvertToResponse(db.users, db.comments, newId, [])
  {
    if postId !in db.posts {
      return Err(PostNotFound("Post not found with id: " + postId));
    }
    var post := db.posts[postId];
    var author := FindByEmail(db.users, userEmail);
    if author.None? {
      return Err(UsernameNotFound("User not found"));
    }
    var parent: Option<Comment> := None;
    if parentId.Some? {
      if parentId.value !in db.comments {
        return Err(Runtime("Parent comment not found"));
      }
      parent := Some(db.comments[parentId.value]);
    }
    db.comments := db.comments[newId := Comment(content, postId, author.value.email, parentId)];
    var notice := CommentNotification(post, postId, parent, author.value);
    CreateNotification(db, notice.recipient, notice.kind, author.value.name, author.value.email,
                       notice.message, Some(postId), Some(post.title), notificationId);
    r := Ok(ConvertToResponse(db.users, db.comments, newId, []));
  }

  /**
   * `updateComment`: a missing comment throws, so does a caller who is not
   * its author, and neither changes anything; otherwise only the content
   * changes.
   */
  method UpdateComment(db: Db, commentId: Uuid, content: string, userEmail: string, replyIds: seq<Uuid>)
    returns (r: Result<CommentResponse, Error>)
    requires RepliesOf(db.comments, commentId, replyIds)
    modifies db`comments
    ensures commentId !in old(db.comments) ==> r == Err(Runtime("Comment not found"))
    ensures commentId in old(db.comments) && old(db.comments)[commentId].author != userEmail ==>
      r == Err(Unauthorized("You are not authorized to edit this comment"))
    ensures r.Err? ==> db.comments == old(db.comments)
    ensures r.Ok? ==>
      && commentId in old(db.comments) && old(db.comments)[commentId].author == userEmail
      && db.comments == old(db.comments)[commentId := old(db.comments)[commentId].(content := content)]
      && r.value == ConvertToResponse(db.users, db.comments, commentId, replyIds)
  {
    if commentId !in db.comments {
      return Err(Runtime("Comment not found"));
    }
    var comment := db.comments[commentId];
    if comment.author != userEmail {
      return Err(Unauthorized("You are not authorized to edit this comment"));
    }
    db.comments := db.comments[commentId := comment.(content := content)];
    r := Ok(ConvertToResponse(db.users, db.comments, commentId, replyIds));
  }

  /** An edit keeps every comment's post, author and parent, so the reply structure is what it was. */
  lemma EditKeepsThreads(comments: map<Uuid, Comment>, commentId: Uuid, content: string, id: Uuid, replyIds: seq<Uuid>)
    requires commentId in comments
    ensures var edited := comments[commentId := comments[commentId].(content := content)];
      && edited.Keys == comments.Keys
      && (forall k :: k in edited ==>
            edited[k].post == comments[k].post && edited[k].author == comments[k].author
            && edited[k].parent == comments[k].parent)
      && (RepliesOf(edited, id, replyIds) <==> RepliesOf(comments, id, replyIds))
  {
  }

  /**
   * `deleteComment`: a missing comment throws, so does a caller who is not
   * its author, and neither changes anything; otherwise that row goes.
   */
  method DeleteComment(db: Db, commentId: Uuid, userEmail: string) returns (r: Result<(), Error>)
    modifies db`comments
    ensures commentId !in old(db.comments) ==> r == Err(Runtime("Comment not found"))
    ensures commentId in old(db.comments) && old(db.comments)[commentId].author != userEmail ==>
      r == Err(Unauthorized("You are not authorized to delete this comment"))
    ensures r.Err? ==> db.comments == old(db.comments)
    ensures r.Ok? <==> commentId in old(db.comments) && old(db.comments)[commentId].author == userEmail
    ensures r.Ok? ==> db.comments == old(db.comments) - {commentId}
  {
    if commentId !in db.comments {
      return Err(Runtime("Comment not found"));
    }
    if db.comments[commentId].author != userEmail {
      return Err(Unauthorized("You are not authorized to delete this comment"));
    }
    db.comments := db.comments - {commentId};
    r := Ok(());
  }
}
