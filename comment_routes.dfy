/** The comment handlers of routes/comments.js: add a comment, delete one's
    own comment, like and unlike a comment. None of them creates a
    notification, and each touches only the comments collection. */
module CommentRoutes {
  import opened Types
  import opened ArrayOps
  import opened Documents
  import opened Consistency

  /** Every comment's likes hold each user at most once. */
  ghost predicate CommentLikesDistinct(comments: map<CommentId, Comment>)
  {
    forall c :: c in comments ==> NoDup(comments[c].likes)
  }

  /** POST /comment/:blogId. The blog id is taken from the path and not looked
      up. An empty `content` stands for a missing or empty body field, which
      the schema's `required` rejects. */
  function AddComment(db: Db, actor: Option<UserId>, blog: BlogId, content: string): (r: Step)
    requires IdsIssued(db)
    ensures actor.None? ==> r == Step(db, Err(LoginRequired))
    ensures actor.Some? && content == "" ==> r == Step(db, Err(Failed))
    ensures r.outcome.Ok? <==> actor.Some? && content != ""
    ensures r.outcome.Ok? ==>
      && db.nextId !in db.comments
      && r.db.comments.Keys == db.comments.Keys + {db.nextId}
      && r.db.comments[db.nextId].content == content
      && r.db.comments[db.nextId].createdBy == actor.value
      && r.db.comments[db.nextId].blogId == blog
      && r.db.comments[db.nextId].likes == []
      && (forall c :: c in db.comments ==> r.db.comments[c] == db.comments[c])
      && r.db.nextId > db.nextId
      && r.db.(comments := db.comments, nextId := db.nextId) == db
  {
    if actor.None? then Step(db, Err(LoginRequired))
    else if content == "" then Step(db, Err(Failed))
    else
      Step(db.(comments := db.comments[db.nextId := Comment(content, actor.value, blog, [])],
               nextId := db.nextId + 1),
           Ok)
  }

  /** DELETE /comment/:commentId. The comment is looked up before the login
      check, so a missing comment reports NotFound even to an anonymous
      caller, and an anonymous caller of an existing comment is Unauthorized.
      The comment's likes go with it; nothing else is removed. */
  function DeleteComment(db: Db, actor: Option<UserId>, id: CommentId): (r: Step)
    ensures id !in db.comments ==> r == Step(db, Err(NotFound))
    ensures id in db.comments && actor != Some(db.comments[id].createdBy) ==> r == Step(db, Err(Unauthorized))
    ensures r.outcome.Ok? <==> id in db.comments && actor == Some(db.comments[id].createdBy)
    ensures r.outcome.Ok? ==>
      && r.db.comments.Keys == db.comments.Keys - {id}
      && (forall c :: c in r.db.comments ==> r.db.comments[c] == db.comments[c])
      && r.db.(comments := db.comments) == db
  {
    if id !in db.comments then Step(db, Err(NotFound))
    else if actor.None? || db.comments[id].createdBy != actor.value then Step(db, Err(Unauthorized))
    else Step(db.(comments := db.comments - {id}), Ok)
  }

  /** POST /comment/:commentId/like: push the actor onto the comment's likes
      unless already there. */
  function LikeComment(db: Db, actor: Option<UserId>, id: CommentId): (r: Step)
    ensures actor.None? ==> r == Step(db, Err(LoginRequired))
    ensures actor.Some? && id !in db.comments ==> r == Step(db, Err(NotFound))
    ensures actor.Some? && id in db.comments && actor.value in db.comments[id].likes ==> r == Step(db, Err(AlreadyLiked))
    ensures r.outcome.Ok? <==> actor.Some? && id in db.comments && actor.value !in db.comments[id].likes
    ensures r.outcome.Ok? ==>
      && r.db.comments.Keys == db.comments.Keys
      && |r.db.comments[id].likes| == |db.comments[id].likes| + 1
      && r.db.comments[id].likes[..|db.comments[id].likes|] == db.comments[id].likes
      && actor.value in r.db.comments[id].likes
      && r.db.comments[id].(likes := db.comments[id].likes) == db.comments[id]
      && (forall c :: c in db.comments && c != id ==> r.db.comments[c] == db.comments[c])
      && r.db.(comments := db.comments) == db
  {
    if actor.None? then Step(db, Err(LoginRequired))
    else if id !in db.comments then Step(db, Err(NotFound))
    else if actor.value in db.comments[id].likes then Step(db, Err(AlreadyLiked))
    else
      var c := db.comments[id];
      Step(db.(comments := db.comments[id := c.(likes := c.likes + [actor.value])]), Ok)
  }

  /** DELETE /comment/:commentId/like: filter the actor out of the comment's
      likes, provided the actor is there. */
  function UnlikeComment(db: Db, actor: Option<UserId>, id: CommentId): (r: Step)
    ensures actor.None? ==> r == Step(db, Err(LoginRequired))
    ensures actor.Some? && id !in db.comments ==> r == Step(db, Err(NotFound))
    ensures actor.Some? && id in db.comments && actor.value !in db.comments[id].likes ==> r == Step(db, Err(NotLiked))
    ensures r.outcome.Ok? <==> actor.Some? && id in db.comments && actor.value in db.comments[id].likes
    ensures r.outcome.Ok? ==>
      && r.db.comments.Keys == db.comments.Keys
      && (forall u :: u in r.db.comments[id].likes <==> u in db.comments[id].likes && u != actor.value)
      && |r.db.comments[id].likes| < |db.comments[id].likes|
      && r.db.comments[id].(likes := db.comments[id].likes) == db.comments[id]
      && (forall c :: c in db.comments && c != id ==> r.db.comments[c] == db.comments[c])
      && r.db.(comments := db.comments) == db
  {
    if actor.None? then Step(db, Err(LoginRequired))
    else if id !in db.comments then Step(db, Err(NotFound))
    else if actor.value !in db.comments[id].likes then Step(db, Err(NotLiked))
    else
      var c := db.comments[id];
      PullShrinks(c.likes, actor.value);
      Step(db.(comments := db.comments[id := c.(likes := Pull(c.likes, actor.value))]), Ok)
  }

  /** Pulling an element that is present makes the list strictly shorter. */
  lemma {:induction false} PullShrinks(s: seq<Id>, x: Id)
    requires x in s
    ensures |Pull(s, x)| < |s|
  {
    if s[0] != x {
      PullShrinks(s[1..], x);
    }
  }

  /** A handler that changes only the comments and possibly advances the id
      generator keeps every consistency condition, as long as the comment ids
      stay below the generator. */
  lemma CommentsOnlyChangeKeepsConsistency(db: Db, comments: map<CommentId, Comment>, next: Id)
    requires Consistent(db)
    requires db.nextId <= next && forall c :: c in comments ==> c < next
    ensures Consistent(db.(comments := comments, nextId := next))
  {
    var r := db.(comments := comments, nextId := next);
    assert IdsIssued(r);
  }

  lemma AddCommentPreservesConsistency(db: Db, actor: Option<UserId>, blog: BlogId, content: string)
    requires Consistent(db) && CommentLikesDistinct(db.comments)
    ensures var r := AddComment(db, actor, blog, content).db;
      Consistent(r) && CommentLikesDistinct(r.comments)
  {
    var r := AddComment(db, actor, blog, content).db;
    if r != db {
      CommentsOnlyChangeKeepsConsistency(db, r.comments, r.nextId);
    }
  }

  lemma DeleteCommentPreservesConsistency(db: Db, actor: Option<UserId>, id: CommentId)
    requires Consistent(db) && CommentLikesDistinct(db.comments)
    ensures var r := DeleteComment(db, actor, id).db;
      Consistent(r) && CommentLikesDistinct(r.comments)
  {
    var r := DeleteComment(db, actor, id).db;
    if r != db {
      CommentsOnlyChangeKeepsConsistency(db, r.comments, r.nextId);
    }
  }

  /** Liking never puts a user twice into a comment's likes. */
  lemma LikeCommentPreservesConsistency(db: Db, actor: Option<UserId>, id: CommentId)
    requires Consistent(db) && CommentLikesDistinct(db.comments)
    ensures var r := LikeComment(db, actor, id).db;
      Consistent(r) && CommentLikesDistinct(r.comments)
  {
    var r := LikeComment(db, actor, id).db;
    if LikeComment(db, actor, id).outcome.Ok? {
      CommentsOnlyChangeKeepsConsistency(db, r.comments, r.nextId);
      var likes := db.comments[id].likes;
      assert r.comments[id].likes == likes + [actor.value];
      assert AddToSet(likes, actor.value) == likes + [actor.value];
    }
  }

  lemma UnlikeCommentPreservesConsistency(db: Db, actor: Option<UserId>, id: CommentId)
    requires Consistent(db) && CommentLikesDistinct(db.comments)
    ensures var r := UnlikeComment(db, actor, id).db;
      Consistent(r) && CommentLikesDistinct(r.comments)
  {
    var r := UnlikeComment(db, actor, id).db;
    if UnlikeComment(db, actor, id).outcome.Ok? {
      CommentsOnlyChangeKeepsConsistency(db, r.comments, r.nextId);
    }
  }

  /** Adding a comment and then deleting it as its author gives back the
      store, with the id generator moved on. */
  lemma AddThenDeleteComment(db: Db, me: UserId, blog: BlogId, content: string)
    requires IdsIssued(db) && content != ""
    ensures var added := AddComment(db, Some(me), blog, content).db;
      DeleteComment(added, Some(me), db.nextId) == Step(db.(nextId := added.nextId), Ok)
  {
    var added := AddComment(db, Some(me), blog, content).db;
    assert added.comments - {db.nextId} == db.comments;
  }

  /** Only the author can delete a comment: for anyone else, or for an
      anonymous caller, the store stays as it is. */
  lemma OnlyAuthorDeletesComment(db: Db, actor: Option<UserId>, id: CommentId)
    requires id in db.comments
    ensures DeleteComment(db, actor, id).db != db <==> actor == Some(db.comments[id].createdBy)
  {
    if actor == Some(db.comments[id].createdBy) {
      assert id !in DeleteComment(db, actor, id).db.comments;
    }
  }

  /** A deleted comment cannot be deleted again. */
  lemma DeleteCommentTwice(db: Db, actor: Option<UserId>, id: CommentId)
    requires DeleteComment(db, actor, id).outcome.Ok?
    ensures DeleteComment(DeleteComment(db, actor, id).db, actor, id) == Step(DeleteComment(db, actor, id).db, Err(NotFound))
  {
  }

  /** A second like by the same user is refused and changes nothing. */
  lemma LikeCommentTwice(db: Db, me: UserId, id: CommentId)
    requires LikeComment(db, Some(me), id).outcome.Ok?
    ensures var once := LikeComment(db, Some(me), id).db;
      LikeComment(once, Some(me), id) == Step(once, Err(AlreadyLiked))
  {
  }

  /** Liking a comment and then unliking it gives back the store exactly. */
  lemma LikeThenUnlikeComment(db: Db, me: UserId, id: CommentId)
    requires LikeComment(db, Some(me), id).outcome.Ok?
    ensures UnlikeComment(LikeComment(db, Some(me), id).db, Some(me), id) == Step(db, Ok)
  {
    var c := db.comments[id];
    PullAfterPush(c.likes, me);
    assert db.comments[id := c] == db.comments;
  }

  /** Unliking and then liking again puts the user back into the likes,
      now at the end of the list. */
  lemma UnlikeThenLikeComment(db: Db, me: UserId, id: CommentId)
    requires UnlikeComment(db, Some(me), id).outcome.Ok?
    ensures var once := UnlikeComment(db, Some(me), id).db;
      var again := LikeComment(once, Some(me), id);
      again.outcome.Ok? && again.db.comments[id].likes == Pull(db.comments[id].likes, me) + [me]
  {
  }

  /** Unliking removes the actor and keeps the other likers in their
      original order, wherever the actor stood in the list. */
  lemma UnlikeCommentKeepsOrder(db: Db, me: UserId, id: CommentId, before: seq<UserId>, after: seq<UserId>)
    requires id in db.comments && db.comments[id].likes == before + [me] + after
    requires me !in before && me !in after
    ensures var r := UnlikeComment(db, Some(me), id);
      r.outcome == Ok && r.db.comments[id].likes == before + after
  {
    PullKeepsOrder(before, after, me);
    assert me in db.comments[id].likes by {
      assert db.comments[id].likes[|before|] == me;
    }
  }
}
