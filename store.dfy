/** The database as the handlers see it: collections updated in place, one
    method per route handler. Each method performs the handler's steps on the
    fields and is proved to end in the state, and to report the outcome,
    that the handler's transition function gives; the consistency conditions
    are kept as the class invariant. */
module Storage {
  import opened Types
  import opened ArrayOps
  import opened NotificationModel
  import opened Documents
  import opened Consistency
  import NotificationRoutes
  import UserRoutes
  import BlogRoutes
  import CommentRoutes
  import SubscriptionRoutes

  class Store {
    var users: map<UserId, User>
    var blogs: map<BlogId, Blog>
    var comments: map<CommentId, Comment>
    var notifications: map<NotificationId, Notification>
    var subscriptions: map<(UserId, string), PushKeys>
    var pushes: seq<PushEvent>
    var nextId: Id

    /** The collections as one value. */
    function State(): Db
      reads this
    {
      Db(users, blogs, comments, notifications, subscriptions, pushes, nextId)
    }

    ghost predicate Valid()
      reads this
    {
      Consistent(State()) && CommentRoutes.CommentLikesDistinct(comments)
    }

    /** An empty database. */
    constructor ()
      ensures Valid()
      ensures users == map[] && blogs == map[] && comments == map[] && notifications == map[]
      ensures subscriptions == map[] && pushes == [] && nextId == 0
    {
      users, blogs, comments, notifications := map[], map[], map[], map[];
      subscriptions, pushes, nextId := map[], [], 0;
    }

    /** POST /notification/accept/:id. */
    method Accept(actor: Option<UserId>, id: NotificationId) returns (outcome: Outcome)
      requires Valid()
      modifies this
      ensures Valid()
      ensures State() == NotificationRoutes.Accept(old(State()), actor, id).db
      ensures outcome == NotificationRoutes.Accept(old(State()), actor, id).outcome
    {
      if actor.None? {
        return Err(LoginRequired);
      }
      var me := actor.value;
      if id !in notifications || notifications[id].recipient != me {
        return Err(NotFoundOrUnauthorized);
      }
      var n := notifications[id];
      if n.kind != FollowRequest || n.status != Pending {
        return Err(InvalidState);
      }
      Befriend(me, n.sender, id);
      NotificationRoutes.AcceptPreservesConsistency(old(State()), actor, id);
      return Ok;
    }

    /** The three updates of a successful accept: the sender joins `me`'s
        followers, `me` joins the sender's following, and the request is
        ACCEPTED. */
    method Befriend(me: UserId, sender: UserId, id: NotificationId)
      requires id in notifications
      modifies this
      ensures State() == old(State()).(users := NotificationRoutes.AddFollowing(NotificationRoutes.AddFollower(old(users), me, sender), sender, me),
                                      notifications := NotificationRoutes.SetStatus(old(notifications), id, Accepted))
    {
      if me in users {
        users := users[me := users[me].(followers := AddToSet(users[me].followers, sender))];
      }
      if sender in users {
        users := users[sender := users[sender].(following := AddToSet(users[sender].following, me))];
      }
      notifications := notifications[id := notifications[id].(status := Accepted)];
    }

    /** POST /notification/reject/:id. */
    method Reject(actor: Option<UserId>, id: NotificationId) returns (outcome: Outcome)
      requires Valid()
      modifies this
      ensures Valid()
      ensures State() == NotificationRoutes.Reject(old(State()), actor, id).db
      ensures outcome == NotificationRoutes.Reject(old(State()), actor, id).outcome
    {
      if actor.None? {
        return Err(LoginRequired);
      }
      if id !in notifications || notifications[id].recipient != actor.value {
        return Err(NotFoundOrUnauthorized);
      }
      var n := notifications[id];
      if n.kind != FollowRequest || n.status != Pending {
        return Err(InvalidState);
      }
      notifications := notifications[id := n.(status := Rejected)];
      NotificationRoutes.RejectPreservesConsistency(old(State()), actor, id);
      return Ok;
    }

    /** POST /notification/read/:id. */
    method MarkRead(actor: Option<UserId>, id: NotificationId) returns (outcome: Outcome)
      requires Valid()
      modifies this
      ensures Valid()
      ensures State() == NotificationRoutes.MarkRead(old(State()), actor, id).db
      ensures outcome == NotificationRoutes.MarkRead(old(State()), actor, id).outcome
    {
      if actor.None? {
        return Err(LoginRequired);
      }
      if id !in notifications || notifications[id].recipient != actor.value {
        return Err(NotFoundOrUnauthorized);
      }
      notifications := notifications[id := notifications[id].(status := Read)];
      NotificationRoutes.MarkReadPreservesConsistency(old(State()), actor, id);
      return Ok;
    }

    /** POST /user/follow/:id. */
    method RequestFollow(actor: Option<UserId>, target: UserId) returns (outcome: Outcome)
      requires Valid()
      modifies this
      ensures Valid()
      ensures State() == UserRoutes.RequestFollow(old(State()), actor, target).db
      ensures outcome == UserRoutes.RequestFollow(old(State()), actor, target).outcome
    {
      if actor.None? {
        return Err(LoginRequired);
      }
      var me := actor.value;
      if target == me {
        return Err(SelfTarget);
      }
      if target !in users {
        return Err(NotFound);
      }
      if HasPendingRequest(notifications, me, target) {
        return Err(AlreadyRequested);
      }
      Insert(Issue(target, me, FollowRequest, None, UserRoutes.FOLLOW_MESSAGE));
      UserRoutes.RequestFollowPreservesConsistency(old(State()), actor, target);
      return Ok;
    }

    /** `Notification.create`: store `n` under the next id. */
    method Insert(n: Notification)
      modifies this
      ensures State() == old(State()).(notifications := old(notifications)[old(nextId) := n], nextId := old(nextId) + 1)
    {
      notifications := notifications[nextId := n];
      nextId := nextId + 1;
    }

    /** POST /user/unfollow/:id. */
    method Unfollow(actor: Option<UserId>, target: UserId) returns (outcome: Outcome)
      requires Valid()
      modifies this
      ensures Valid()
      ensures State() == UserRoutes.Unfollow(old(State()), actor, target).db
      ensures outcome == UserRoutes.Unfollow(old(State()), actor, target).outcome
    {
      if actor.None? {
        return Err(LoginRequired);
      }
      var me := actor.value;
      if target == me {
        return Err(SelfTarget);
      }
      if target !in users {
        return Err(NotFound);
      }
      Unfriend(me, target);
      UserRoutes.UnfollowPreservesConsistency(old(State()), actor, target);
      return Ok;
    }

    /** The two `$pull`s of an unfollow: `target` leaves `me`'s following
        and `me` leaves `target`'s followers, on the records that exist. */
    method Unfriend(me: UserId, target: UserId)
      modifies this
      ensures State() == old(State()).(users := UserRoutes.PullFollower(UserRoutes.PullFollowing(old(users), me, target), target, me))
    {
      if me in users {
        users := users[me := users[me].(following := Pull(users[me].following, target))];
      }
      if target in users {
        users := users[target := users[target].(followers := Pull(users[target].followers, me))];
      }
    }

    /** POST /blog: create the blog, then loop over the author's populated
        followers, creating one POST notification and emitting one push
        event per follower. */
    method Publish(actor: Option<UserId>, title: string, body: string) returns (outcome: Outcome)
      requires Valid()
      modifies this
      ensures Valid()
      ensures State() == BlogRoutes.Publish(old(State()), actor, title, body).db
      ensures outcome == BlogRoutes.Publish(old(State()), actor, title, body).outcome
    {
      if actor.None? {
        return Err(LoginRequired);
      }
      if title == "" || body == "" {
        return Err(Failed);
      }
      ghost var spec := BlogRoutes.Publish(State(), actor, title, body);
      var me, b := actor.value, nextId;
      ghost var created := BlogRoutes.CreateBlog(State(), Blog(title, body, me, []));
      blogs := blogs[b := Blog(title, body, me, [])];
      nextId := nextId + 1;
      assert State() == created;
      if me !in users {
        assert spec == Step(created, Err(Failed));
        BlogRoutes.PublishPreservesConsistency(old(State()), actor, title, body);
        return Err(Failed);
      }
      var fs := BlogRoutes.Populated(users[me].followers, users);
      assert spec == Step(BlogRoutes.FanOut(created, me, b, fs), Ok);
      NotifyFollowers(me, b, fs);
      BlogRoutes.PublishPreservesConsistency(old(State()), actor, title, body);
      return Ok;
    }

    /** The `for (const follower of user.followers)` loop of POST /blog:
        per follower, in order, one POST notification under a fresh id and
        one push event. */
    method NotifyFollowers(me: UserId, b: BlogId, fs: seq<UserId>)
      requires forall id :: id in notifications ==> id < nextId
      modifies this
      ensures State() == BlogRoutes.FanOut(old(State()), me, b, fs)
    {
      ghost var start := State();
      var i := 0;
      while i < |fs|
        invariant 0 <= i <= |fs|
        invariant State() == BlogRoutes.FanOut(start, me, b, fs[..i])
      {
        BlogRoutes.FanOutStep(start, me, b, fs, i);
        notifications := notifications[nextId := Issue(fs[i], me, Post, Some(b), BlogRoutes.POST_MESSAGE)];
        pushes := pushes + [PushEvent(fs[i], b)];
        nextId := nextId + 1;
        i := i + 1;
      }
      assert fs[..|fs|] == fs;
    }

    /** DELETE /blog/:id: the blog, then its comments, then its
        notifications. */
    method DeleteBlog(actor: Option<UserId>, id: BlogId) returns (outcome: Outcome)
      requires Valid()
      modifies this
      ensures Valid()
      ensures State() == BlogRoutes.DeleteBlog(old(State()), actor, id).db
      ensures outcome == BlogRoutes.DeleteBlog(old(State()), actor, id).outcome
    {
      if actor.None? {
        return Err(LoginRequired);
      }
      if id !in blogs {
        return Err(NotFound);
      }
      if blogs[id].createdBy != actor.value {
        return Err(Unauthorized);
      }
      Cascade(id);
      BlogRoutes.DeleteBlogPreservesConsistency(old(State()), actor, id);
      return Ok;
    }

    /** `findByIdAndDelete` on the blog, then `deleteMany` on its comments
        and on the notifications about it. */
    method Cascade(id: BlogId)
      requires id in blogs
      modifies this
      ensures State() == BlogRoutes.DeleteBlog(old(State()), Some(old(blogs)[id].createdBy), id).db
    {
      blogs := blogs - {id};
      comments := map c | c in comments && comments[c].blogId != id :: comments[c];
      notifications := map n | n in notifications && notifications[n].blogId != Some(id) :: notifications[n];
    }

    /** POST /blog/:id/like: pull or push on both arrays, delete or create
        the LIKE notification, then save. */
    method ToggleLike(actor: Option<UserId>, b: BlogId) returns (outcome: Outcome)
      requires Valid()
      modifies this
      ensures Valid()
      ensures State() == BlogRoutes.ToggleLike(old(State()), actor, b).db
      ensures outcome == BlogRoutes.ToggleLike(old(State()), actor, b).outcome
    {
      if actor.None? {
        return Err(LoginRequired);
      }
      if b !in blogs {
        return Err(NotFound);
      }
      if blogs[b].createdBy !in users {
        return Err(Failed);
      }
      var me := actor.value;
      if blogs[b].createdBy == me {
        return Err(SelfTarget);
      }
      if me !in users {
        return Err(Failed);
      }
      if me in blogs[b].likes {
        RemoveLike(me, b);
      } else {
        AddLike(me, b);
      }
      BlogRoutes.ToggleLikePreservesConsistency(old(State()), actor, b);
      return Ok;
    }

    /** The like branch of POST /blog/:id/like. */
    method AddLike(me: UserId, b: BlogId)
      requires IdsIssued(State()) && b in blogs && me in users
      modifies this
      ensures State() == BlogRoutes.AddLike(old(State()), me, b)
    {
      var blog, user := blogs[b], users[me];
      blogs := blogs[b := blog.(likes := blog.likes + [me])];
      users := users[me := user.(likedBlogs := user.likedBlogs + [b])];
      notifications := notifications[nextId := Issue(blog.createdBy, me, Like, Some(b), BlogRoutes.LIKE_MESSAGE)];
      pushes := pushes + [PushEvent(blog.createdBy, b)];
      nextId := nextId + 1;
    }

    /** The unlike branch of POST /blog/:id/like: `deleteOne` removes the
        first matching LIKE notification. */
    method RemoveLike(me: UserId, b: BlogId)
      requires IdsIssued(State()) && b in blogs && me in users
      modifies this
      ensures State() == BlogRoutes.RemoveLike(old(State()), me, b)
    {
      var blog, user := blogs[b], users[me];
      blogs := blogs[b := blog.(likes := Pull(blog.likes, me))];
      users := users[me := user.(likedBlogs := Pull(user.likedBlogs, b))];
      notifications := BlogRoutes.DropFirstLike(notifications, me, blog.createdBy, b, nextId);
    }

    /** POST /comment/:blogId. */
    method AddComment(actor: Option<UserId>, blog: BlogId, content: string) returns (outcome: Outcome)
      requires Valid()
      modifies this
      ensures Valid()
      ensures State() == CommentRoutes.AddComment(old(State()), actor, blog, content).db
      ensures outcome == CommentRoutes.AddComment(old(State()), actor, blog, content).outcome
    {
      if actor.None? {
        return Err(LoginRequired);
      }
      if content == "" {
        return Err(Failed);
      }
      comments := comments[nextId := Comment(content, actor.value, blog, [])];
      nextId := nextId + 1;
      CommentRoutes.AddCommentPreservesConsistency(old(State()), actor, blog, content);
      return Ok;
    }

    /** DELETE /comment/:commentId. */
    method DeleteComment(actor: Option<UserId>, id: CommentId) returns (outcome: Outcome)
      requires Valid()
      modifies this
      ensures Valid()
      ensures State() == CommentRoutes.DeleteComment(old(State()), actor, id).db
      ensures outcome == CommentRoutes.DeleteComment(old(State()), actor, id).outcome
    {
      if id !in comments {
        return Err(NotFound);
      }
      if actor.None? || comments[id].createdBy != actor.value {
        return Err(Unauthorized);
      }
      comments := comments - {id};
      CommentRoutes.DeleteCommentPreservesConsistency(old(State()), actor, id);
      return Ok;
    }

    /** POST /comment/:commentId/like. */
    method LikeComment(actor: Option<UserId>, id: CommentId) returns (outcome: Outcome)
      requires Valid()
      modifies this
      ensures Valid()
      ensures State() == CommentRoutes.LikeComment(old(State()), actor, id).db
      ensures outcome == CommentRoutes.LikeComment(old(State()), actor, id).outcome
    {
      if actor.None? {
        return Err(LoginRequired);
      }
      if id !in comments {
        return Err(NotFound);
      }
      var c := comments[id];
      if actor.value in c.likes {
        return Err(AlreadyLiked);
      }
      comments := comments[id := c.(likes := c.likes + [actor.value])];
      CommentRoutes.LikeCommentPreservesConsistency(old(State()), actor, id);
      return Ok;
    }

    /** DELETE /comment/:commentId/like. */
    method UnlikeComment(actor: Option<UserId>, id: CommentId) returns (outcome: Outcome)
      requires Valid()
      modifies this
      ensures Valid()
      ensures State() == CommentRoutes.UnlikeComment(old(State()), actor, id).db
      ensures outcome == CommentRoutes.UnlikeComment(old(State()), actor, id).outcome
    {
      if actor.None? {
        return Err(LoginRequired);
      }
      if id !in comments {
        return Err(NotFound);
      }
      var c := comments[id];
      if actor.value !in c.likes {
        return Err(NotLiked);
      }
      comments := comments[id := c.(likes := Pull(c.likes, actor.value))];
      CommentRoutes.UnlikeCommentPreservesConsistency(old(State()), actor, id);
      return Ok;
    }

    /** POST /subscription/save. */
    method SaveSubscription(actor: Option<UserId>, endpoint: string, keys: Option<PushKeys>) returns (outcome: Outcome)
      requires Valid()
      modifies this
      ensures Valid()
      ensures State() == SubscriptionRoutes.Save(old(State()), actor, endpoint, keys).db
      ensures outcome == SubscriptionRoutes.Save(old(State()), actor, endpoint, keys).outcome
    {
      if actor.None? {
        return Err(LoginRequired);
      }
      if keys.None? {
        return Err(Failed);
      }
      subscriptions := subscriptions[(actor.value, endpoint) := keys.value];
      SubscriptionRoutes.SavePreservesConsistency(old(State()), actor, endpoint, keys);
      return Ok;
    }
  }
}
