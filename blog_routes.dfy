/** routes/blog.js: publishing (with POST fan-out to followers), the owner's
    cascade delete, and the like toggle that moves blog.likes,
    user.likedBlogs and the LIKE notification together. */
module BlogRoutes {
  import opened Types
  import opened ArrayOps
  import opened NotificationModel
  import opened Documents
  import opened Consistency

  const POST_MESSAGE := "published a new blog"
  const LIKE_MESSAGE := "liked your post"

  /** `populate("followers")`: ids without a User document are dropped, the
      rest keep their order. */
  function Populated(ids: seq<UserId>, users: map<UserId, User>): (r: seq<UserId>)
    ensures forall x :: x in r <==> x in ids && x in users
    ensures |r| <= |ids|
    ensures NoDup(ids) ==> NoDup(r)
  {
    if ids == [] then []
    else if ids[0] in users then
      NoDupTail(ids);
      NoDupCons(ids[0], Populated(ids[1..], users));
      [ids[0]] + Populated(ids[1..], users)
    else
      NoDupTail(ids);
      Populated(ids[1..], users)
  }

  /** One pass of the publish loop: create the POST notification for
      follower `f`, then emit its push event. */
  function NotifyFollower(db: Db, sender: UserId, blog: BlogId, f: UserId): Db
  {
    db.(notifications := db.notifications[db.nextId := Issue(f, sender, Post, Some(blog), POST_MESSAGE)],
        pushes := db.pushes + [PushEvent(f, blog)],
        nextId := db.nextId + 1)
  }

  /** The publish loop over the populated followers `fs`, one
      `NotifyFollower` per follower in order. */
  function FanOut(db: Db, sender: UserId, blog: BlogId, fs: seq<UserId>): (r: Db)
    requires forall id :: id in db.notifications ==> id < db.nextId
    ensures r.(notifications := db.notifications, pushes := db.pushes, nextId := db.nextId) == db
    ensures r.nextId == db.nextId + |fs|
    ensures forall id :: id in r.notifications <==> id in db.notifications || db.nextId <= id < r.nextId
    decreases |fs|
  {
    if fs == [] then db
    else NotifyFollower(FanOut(db, sender, blog, fs[..|fs| - 1]), sender, blog, fs[|fs| - 1])
  }

  /** One more turn of the publish loop notifies the next follower. */
  lemma FanOutStep(db: Db, sender: UserId, blog: BlogId, fs: seq<UserId>, i: nat)
    requires forall id :: id in db.notifications ==> id < db.nextId
    requires i < |fs|
    ensures FanOut(db, sender, blog, fs[..i + 1]) == NotifyFollower(FanOut(db, sender, blog, fs[..i]), sender, blog, fs[i])
  {
    assert fs[..i + 1][..i] == fs[..i];
  }

  /** The fan-out keeps every earlier notification and adds one per follower. */
  lemma {:induction false} FanOutKeepsEarlier(db: Db, sender: UserId, blog: BlogId, fs: seq<UserId>)
    requires forall id :: id in db.notifications ==> id < db.nextId
    ensures var r := FanOut(db, sender, blog, fs);
      && |r.notifications| == |db.notifications| + |fs|
      && (forall id :: id in db.notifications ==> r.notifications[id] == db.notifications[id])
    decreases |fs|
  {
    if fs != [] {
      var init := fs[..|fs| - 1];
      FanOutKeepsEarlier(db, sender, blog, init);
      var prev := FanOut(db, sender, blog, init);
      assert prev.nextId !in prev.notifications;
    }
  }

  /** The fan-out gives the k-th follower the POST notification with id
      `nextId + k`. */
  lemma {:induction false} FanOutIssues(db: Db, sender: UserId, blog: BlogId, fs: seq<UserId>)
    requires forall id :: id in db.notifications ==> id < db.nextId
    ensures var r := FanOut(db, sender, blog, fs);
      forall k :: 0 <= k < |fs| ==> r.notifications[db.nextId + k] == Issue(fs[k], sender, Post, Some(blog), POST_MESSAGE)
    decreases |fs|
  {
    if fs != [] {
      var init := fs[..|fs| - 1];
      FanOutIssues(db, sender, blog, init);
      var prev := FanOut(db, sender, blog, init);
      var r := FanOut(db, sender, blog, fs);
      assert r.notifications == prev.notifications[prev.nextId := Issue(fs[|init|], sender, Post, Some(blog), POST_MESSAGE)];
      forall k | 0 <= k < |fs|
        ensures r.notifications[db.nextId + k] == Issue(fs[k], sender, Post, Some(blog), POST_MESSAGE)
      {
        if k < |init| {
          assert init[k] == fs[k];
        }
      }
    }
  }

  /** Both halves: earlier notifications kept, the k-th follower's at `nextId + k`. */
  lemma FanOutNotifications(db: Db, sender: UserId, blog: BlogId, fs: seq<UserId>)
    requires forall id :: id in db.notifications ==> id < db.nextId
    ensures var r := FanOut(db, sender, blog, fs);
      && |r.notifications| == |db.notifications| + |fs|
      && (forall id :: id in db.notifications ==> r.notifications[id] == db.notifications[id])
      && (forall k :: 0 <= k < |fs| ==> r.notifications[db.nextId + k] == Issue(fs[k], sender, Post, Some(blog), POST_MESSAGE))
  {
    FanOutKeepsEarlier(db, sender, blog, fs);
    FanOutIssues(db, sender, blog, fs);
  }

  /** The fan-out appends one push event per follower, in follower order. */
  lemma {:induction false} FanOutPushes(db: Db, sender: UserId, blog: BlogId, fs: seq<UserId>)
    requires forall id :: id in db.notifications ==> id < db.nextId
    ensures var r := FanOut(db, sender, blog, fs);
      r.pushes == db.pushes + seq(|fs|, k requires 0 <= k < |fs| => PushEvent(fs[k], blog))
    decreases |fs|
  {
    if fs != [] {
      var init := fs[..|fs| - 1];
      FanOutPushes(db, sender, blog, init);
      var r := FanOut(db, sender, blog, fs);
      assert r.pushes == db.pushes + seq(|init|, k requires 0 <= k < |init| => PushEvent(init[k], blog)) + [PushEvent(fs[|fs| - 1], blog)];
    }
  }

  /** `Blog.create`: the blog is stored under a fresh id. */
  function CreateBlog(db: Db, blog: Blog): (r: Db)
    ensures r.blogs.Keys == db.blogs.Keys + {db.nextId} && r.blogs[db.nextId] == blog
    ensures forall x :: x in db.blogs && x != db.nextId ==> r.blogs[x] == db.blogs[x]
    ensures r.nextId == db.nextId + 1 && r.(blogs := db.blogs, nextId := db.nextId) == db
  {
    db.(blogs := db.blogs[db.nextId := blog], nextId := db.nextId + 1)
  }

  /** POST /blog: create the blog, then notify every follower of the author
      that has a User document, one POST notification and one push each. A
      missing author document makes `user.followers` throw after the blog was
      created: the blog stays, nobody is notified, and the handler fails. */
  function Publish(db: Db, actor: Option<UserId>, title: string, body: string): (r: Step)
    requires IdsIssued(db)
    ensures actor.None? ==> r == Step(db, Err(LoginRequired))
    ensures actor.Some? && (title == "" || body == "") ==> r == Step(db, Err(Failed))
    ensures r.outcome.Ok? <==> actor.Some? && title != "" && body != "" && actor.value in db.users
    ensures actor.Some? && title != "" && body != "" ==>
      var b := db.nextId;
      && b !in db.blogs
      && r.db.blogs.Keys == db.blogs.Keys + {b}
      && r.db.blogs[b] == Blog(title, body, actor.value, [])
      && (forall x :: x in db.blogs ==> r.db.blogs[x] == db.blogs[x])
      && r.db.users == db.users && r.db.comments == db.comments && r.db.subscriptions == db.subscriptions
      && r.db.nextId > b
    ensures actor.Some? && title != "" && body != "" && actor.value !in db.users ==>
      r.outcome == Err(Failed) && r.db.notifications == db.notifications && r.db.pushes == db.pushes
  {
    if actor.None? then Step(db, Err(LoginRequired))
    else if title == "" || body == "" then Step(db, Err(Failed))
    else
      var me, b := actor.value, db.nextId;
      var db1 := CreateBlog(db, Blog(title, body, me, []));
      if me !in db.users then Step(db1, Err(Failed))
      else Step(FanOut(db1, me, b, Populated(db.users[me].followers, db.users)), Ok)
  }

  /** Every push event the fan-out appends is about `blog` and addressed to
      one of `fs`; the earlier log is kept as a prefix. */
  lemma FanOutNewPushes(db: Db, sender: UserId, blog: BlogId, fs: seq<UserId>)
    requires forall id :: id in db.notifications ==> id < db.nextId
    ensures var r := FanOut(db, sender, blog, fs);
      && |r.pushes| == |db.pushes| + |fs| && r.pushes[..|db.pushes|] == db.pushes
      && (forall k :: |db.pushes| <= k < |r.pushes| ==> r.pushes[k].blogId == blog && r.pushes[k].userId in fs)
  {
    var r := FanOut(db, sender, blog, fs);
    FanOutPushes(db, sender, blog, fs);
    var added := seq(|fs|, k requires 0 <= k < |fs| => PushEvent(fs[k], blog));
    assert r.pushes[..|db.pushes|] == db.pushes;
    forall k | |db.pushes| <= k < |r.pushes|
      ensures r.pushes[k].blogId == blog && r.pushes[k].userId in fs
    {
      assert r.pushes[k] == added[k - |db.pushes|];
    }
  }

  /** Every notification the fan-out adds is a PENDING POST from `sender`
      about `blog` to one of `fs`. */
  lemma {:induction false} FanOutAddsPosts(db: Db, sender: UserId, blog: BlogId, fs: seq<UserId>)
    requires forall id :: id in db.notifications ==> id < db.nextId
    ensures var r := FanOut(db, sender, blog, fs);
      forall id :: id in r.notifications && id !in db.notifications ==>
        && r.notifications[id].recipient in fs && r.notifications[id].sender == sender
        && r.notifications[id].kind == Post && r.notifications[id].status == Pending
        && r.notifications[id].blogId == Some(blog)
    decreases |fs|
  {
    if fs != [] {
      var init := fs[..|fs| - 1];
      FanOutAddsPosts(db, sender, blog, init);
      assert forall f :: f in init ==> f in fs;
    }
  }

  /** Every one of `fs` gets a notification from the fan-out. */
  lemma FanOutReachesAll(db: Db, sender: UserId, blog: BlogId, fs: seq<UserId>)
    requires forall id :: id in db.notifications ==> id < db.nextId
    ensures var r := FanOut(db, sender, blog, fs);
      forall f :: f in fs ==> exists id :: id in r.notifications && id !in db.notifications && r.notifications[id].recipient == f
  {
    forall f | f in fs
      ensures var r := FanOut(db, sender, blog, fs);
        exists id :: id in r.notifications && id !in db.notifications && r.notifications[id].recipient == f
    {
      FanOutReaches(db, sender, blog, fs, f);
    }
  }

  /** The fan-out notifies one given member `f` of `fs`. */
  lemma {:induction false} FanOutReaches(db: Db, sender: UserId, blog: BlogId, fs: seq<UserId>, f: UserId)
    requires forall id :: id in db.notifications ==> id < db.nextId
    requires f in fs
    ensures var r := FanOut(db, sender, blog, fs);
      exists id :: id in r.notifications && id !in db.notifications && r.notifications[id].recipient == f
    decreases |fs|
  {
    var init := fs[..|fs| - 1];
    var prev := FanOut(db, sender, blog, init);
    var r := FanOut(db, sender, blog, fs);
    if f in init {
      FanOutReaches(db, sender, blog, init, f);
      var id :| id in prev.notifications && id !in db.notifications && prev.notifications[id].recipient == f;
      assert r.notifications[id] == prev.notifications[id];
    } else {
      assert f == fs[|fs| - 1] by {
        assert fs == init + [fs[|fs| - 1]];
      }
      assert r.notifications[prev.nextId].recipient == f;
    }
  }

  /** A successful publish keeps every earlier notification and adds exactly
      one PENDING POST notification per follower that has a User document,
      each about the new blog and from its author. */
  lemma PublishNotifiesFollowers(db: Db, me: UserId, title: string, body: string)
    requires IdsIssued(db)
    requires title != "" && body != "" && me in db.users
    ensures var r, b := Publish(db, Some(me), title, body).db, db.nextId;
      && (forall id :: id in db.notifications ==> id in r.notifications && r.notifications[id] == db.notifications[id])
      && (forall id :: id in r.notifications && id !in db.notifications ==>
            && r.notifications[id].kind == Post && r.notifications[id].status == Pending
            && r.notifications[id].sender == me && r.notifications[id].blogId == Some(b)
            && r.notifications[id].recipient in db.users[me].followers
            && r.notifications[id].recipient in db.users)
      && (forall f :: f in db.users[me].followers && f in db.users ==>
            exists id :: id in r.notifications && id !in db.notifications && r.notifications[id].recipient == f)
  {
    var b := db.nextId;
    var db1 := CreateBlog(db, Blog(title, body, me, []));
    var fs := Populated(db.users[me].followers, db.users);
    var r := FanOut(db1, me, b, fs);
    assert Publish(db, Some(me), title, body).db == r;
    assert forall id :: id in db.notifications ==> id in r.notifications && r.notifications[id] == db.notifications[id] by {
      FanOutNotifications(db1, me, b, fs);
    }
    FanOutAddsPosts(db1, me, b, fs);
    FanOutReachesAll(db1, me, b, fs);
  }

  /** A successful publish adds one notification per follower that has a
      User document, keeps the push log as a prefix and appends one push event
      per such follower, each linking the new blog. */
  lemma PublishPushesToFollowers(db: Db, me: UserId, title: string, body: string)
    requires IdsIssued(db)
    requires title != "" && body != "" && me in db.users
    ensures var r, b := Publish(db, Some(me), title, body).db, db.nextId;
      var fs := Populated(db.users[me].followers, db.users);
      && |r.notifications| == |db.notifications| + |fs|
      && |r.pushes| == |db.pushes| + |fs| && r.pushes[..|db.pushes|] == db.pushes
      && (forall k :: |db.pushes| <= k < |r.pushes| ==>
            r.pushes[k].blogId == b && r.pushes[k].userId in db.users[me].followers && r.pushes[k].userId in db.users)
  {
    var b := db.nextId;
    var db1 := CreateBlog(db, Blog(title, body, me, []));
    var fs := Populated(db.users[me].followers, db.users);
    var r := FanOut(db1, me, b, fs);
    assert Publish(db, Some(me), title, body).db == r;
    assert |r.notifications| == |db.notifications| + |fs| by {
      FanOutNotifications(db1, me, b, fs);
    }
    FanOutNewPushes(db1, me, b, fs);
  }

  /** DELETE /blog/:id: the owner removes the blog, every comment on it and
      every notification that refers to it; nothing else is removed. */
  function DeleteBlog(db: Db, actor: Option<UserId>, id: BlogId): (r: Step)
    ensures actor.None? ==> r == Step(db, Err(LoginRequired))
    ensures actor.Some? && id !in db.blogs ==> r == Step(db, Err(NotFound))
    ensures actor.Some? && id in db.blogs && db.blogs[id].createdBy != actor.value ==> r == Step(db, Err(Unauthorized))
    ensures r.outcome.Ok? <==> actor.Some? && id in db.blogs && db.blogs[id].createdBy == actor.value
    ensures r.outcome.Ok? ==>
      && r.db.blogs.Keys == db.blogs.Keys - {id}
      && (forall b :: b in r.db.blogs ==> r.db.blogs[b] == db.blogs[b])
      && (forall c :: c in r.db.comments <==> c in db.comments && db.comments[c].blogId != id)
      && (forall c :: c in r.db.comments ==> r.db.comments[c] == db.comments[c])
      && (forall n :: n in r.db.notifications <==> n in db.notifications && db.notifications[n].blogId != Some(id))
      && (forall n :: n in r.db.notifications ==> r.db.notifications[n] == db.notifications[n])
      && r.db.(blogs := db.blogs, comments := db.comments, notifications := db.notifications) == db
  {
    if actor.None? then Step(db, Err(LoginRequired))
    else if id !in db.blogs then Step(db, Err(NotFound))
    else if db.blogs[id].createdBy != actor.value then Step(db, Err(Unauthorized))
    else
      Step(db.(blogs := db.blogs - {id},
               comments := map c | c in db.comments && db.comments[c].blogId != id :: db.comments[c],
               notifications := map n | n in db.notifications && db.notifications[n].blogId != Some(id) :: db.notifications[n]),
           Ok)
  }

  /** `Notification.deleteOne` on a LIKE: the matching notification with the
      smallest id in `[from, bound)`, if any. */
  function FirstLike(notifs: map<NotificationId, Notification>, sender: UserId, recipient: UserId, blog: BlogId, from: nat, bound: nat): (r: Option<NotificationId>)
    ensures r.Some? ==> r.value in LikeIds(notifs, sender, recipient, blog) && from <= r.value < bound
    ensures r.Some? ==> forall id :: id in LikeIds(notifs, sender, recipient, blog) && from <= id ==> r.value <= id
    ensures r.None? ==> forall id :: id in LikeIds(notifs, sender, recipient, blog) ==> id < from || bound <= id
    decreases bound - from
  {
    if bound <= from then None
    else if from in notifs && IsLikeOf(notifs[from], sender, recipient, blog) then Some(from)
    else FirstLike(notifs, sender, recipient, blog, from + 1, bound)
  }

  /** The notifications left after the unlike's `deleteOne`. */
  function DropFirstLike(notifs: map<NotificationId, Notification>, sender: UserId, recipient: UserId, blog: BlogId, bound: nat): (r: map<NotificationId, Notification>)
    ensures r.Keys <= notifs.Keys
    ensures forall n :: n in notifs && !IsLikeOf(notifs[n], sender, recipient, blog) ==> n in r
  {
    match FirstLike(notifs, sender, recipient, blog, 0, bound)
    case None => notifs
    case Some(n) => notifs - {n}
  }

  /** The unlike branch of the toggle: `me` pulled from the blog's likes, the
      blog pulled from `me`'s likedBlogs, and one LIKE notification from `me`
      to the owner about the blog deleted if there is one. */
  function RemoveLike(db: Db, me: UserId, b: BlogId): (r: Db)
    requires IdsIssued(db) && b in db.blogs && me in db.users
    ensures var owner := db.blogs[b].createdBy;
      && r.blogs.Keys == db.blogs.Keys && r.users.Keys == db.users.Keys
      && (forall x :: x in r.blogs[b].likes <==> x in db.blogs[b].likes && x != me)
      && (forall y :: y in r.users[me].likedBlogs <==> y in db.users[me].likedBlogs && y != b)
      && r.blogs[b].(likes := db.blogs[b].likes) == db.blogs[b]
      && r.users[me].(likedBlogs := db.users[me].likedBlogs) == db.users[me]
      && (forall x :: x in db.blogs && x != b ==> r.blogs[x] == db.blogs[x])
      && (forall u :: u in db.users && u != me ==> r.users[u] == db.users[u])
      && (LikeIds(db.notifications, me, owner, b) == {} ==> r.notifications == db.notifications)
      && (LikeIds(db.notifications, me, owner, b) != {} ==>
            exists n :: n in LikeIds(db.notifications, me, owner, b) && r.notifications == db.notifications - {n})
      && r.(blogs := db.blogs, users := db.users, notifications := db.notifications) == db
  {
    var blog, user := db.blogs[b], db.users[me];
    DropFirstLikeRemovesOne(db.notifications, me, blog.createdBy, b, db.nextId);
    db.(blogs := db.blogs[b := blog.(likes := Pull(blog.likes, me))],
        users := db.users[me := user.(likedBlogs := Pull(user.likedBlogs, b))],
        notifications := DropFirstLike(db.notifications, me, blog.createdBy, b, db.nextId))
  }

  /** The like branch of the toggle: `me` appended to the blog's likes, the
      blog appended to `me`'s likedBlogs, a PENDING LIKE notification to the
      owner created under a fresh id and a push event emitted to the owner. */
  function AddLike(db: Db, me: UserId, b: BlogId): (r: Db)
    requires IdsIssued(db) && b in db.blogs && me in db.users
    ensures var owner, n := db.blogs[b].createdBy, db.nextId;
      && r.blogs.Keys == db.blogs.Keys && r.users.Keys == db.users.Keys
      && r.blogs[b].likes == db.blogs[b].likes + [me]
      && r.users[me].likedBlogs == db.users[me].likedBlogs + [b]
      && r.blogs[b].(likes := db.blogs[b].likes) == db.blogs[b]
      && r.users[me].(likedBlogs := db.users[me].likedBlogs) == db.users[me]
      && (forall x :: x in db.blogs && x != b ==> r.blogs[x] == db.blogs[x])
      && (forall u :: u in db.users && u != me ==> r.users[u] == db.users[u])
      && n !in db.notifications
      && r.notifications.Keys == db.notifications.Keys + {n}
      && (forall id :: id in db.notifications ==> r.notifications[id] == db.notifications[id])
      && IsLikeOf(r.notifications[n], me, owner, b) && r.notifications[n].status == Pending
      && r.pushes == db.pushes + [PushEvent(owner, b)]
      && r.nextId > n
      && r.comments == db.comments && r.subscriptions == db.subscriptions
  {
    var blog, user := db.blogs[b], db.users[me];
    db.(blogs := db.blogs[b := blog.(likes := blog.likes + [me])],
        users := db.users[me := user.(likedBlogs := user.likedBlogs + [b])],
        notifications := db.notifications[db.nextId := Issue(blog.createdBy, me, Like, Some(b), LIKE_MESSAGE)],
        pushes := db.pushes + [PushEvent(blog.createdBy, b)],
        nextId := db.nextId + 1)
  }

  /** POST /blog/:id/like. The checks, in the handler's order: login, blog
      found, owner document present (the populated `createdBy` is read), not
      the owner, actor document present; any failure leaves the store alone.
      Then a blog the actor likes is unliked and any other is liked. */
  function ToggleLike(db: Db, actor: Option<UserId>, b: BlogId): (r: Step)
    requires IdsIssued(db)
    ensures actor.None? ==> r == Step(db, Err(LoginRequired))
    ensures actor.Some? && b !in db.blogs ==> r == Step(db, Err(NotFound))
    ensures actor.Some? && b in db.blogs && db.blogs[b].createdBy == actor.value ==> r.db == db && r.outcome.Err?
    ensures actor.Some? && b in db.blogs && db.blogs[b].createdBy !in db.users ==> r == Step(db, Err(Failed))
    ensures actor.Some? && b in db.blogs && db.blogs[b].createdBy in db.users && db.blogs[b].createdBy == actor.value
      ==> r == Step(db, Err(SelfTarget))
    ensures actor.Some? && b in db.blogs && db.blogs[b].createdBy in db.users && db.blogs[b].createdBy != actor.value && actor.value !in db.users
      ==> r == Step(db, Err(Failed))
    ensures r.outcome.Ok? <==>
      actor.Some? && b in db.blogs && db.blogs[b].createdBy != actor.value
      && db.blogs[b].createdBy in db.users && actor.value in db.users
    ensures r.outcome.Err? ==> r.db == db
    ensures r.outcome.Ok? && actor.value in db.blogs[b].likes ==> r.db == RemoveLike(db, actor.value, b)
    ensures r.outcome.Ok? && actor.value !in db.blogs[b].likes ==> r.db == AddLike(db, actor.value, b)
  {
    if actor.None? then Step(db, Err(LoginRequired))
    else if b !in db.blogs then Step(db, Err(NotFound))
    else if db.blogs[b].createdBy !in db.users then Step(db, Err(Failed))
    else if db.blogs[b].createdBy == actor.value then Step(db, Err(SelfTarget))
    else if actor.value !in db.users then Step(db, Err(Failed))
    else if actor.value in db.blogs[b].likes then Step(RemoveLike(db, actor.value, b), Ok)
    else Step(AddLike(db, actor.value, b), Ok)
  }

  /** Each step of the publish loop keeps the store consistent. */
  lemma {:induction false} FanOutPreservesConsistency(db: Db, sender: UserId, blog: BlogId, fs: seq<UserId>)
    requires Consistent(db) && blog < db.nextId
    ensures Consistent(FanOut(db, sender, blog, fs))
    decreases |fs|
  {
    if fs != [] {
      var prev := FanOut(db, sender, blog, fs[..|fs| - 1]);
      FanOutPreservesConsistency(db, sender, blog, fs[..|fs| - 1]);
      var x := Issue(fs[|fs| - 1], sender, Post, Some(blog), POST_MESSAGE);
      InsertNotificationKeepsConsistency(prev, x);
      ConsistentIgnoresPushes(prev.(notifications := prev.notifications[prev.nextId := x], nextId := prev.nextId + 1),
                              prev.pushes + [PushEvent(fs[|fs| - 1], blog)]);
    }
  }

  /** Creating a blog with no likes under a fresh id keeps the store consistent. */
  lemma InsertBlogKeepsConsistency(db: Db, blog: Blog)
    requires Consistent(db) && blog.likes == []
    ensures Consistent(CreateBlog(db, blog))
  {
    var b := db.nextId;
    var db1 := CreateBlog(db, blog);
    assert IdsIssued(db1);
    forall x, u | x in db1.blogs && u in db1.users
      ensures |LikeIds(db1.notifications, u, db1.blogs[x].createdBy, x)| == if u in db1.blogs[x].likes then 1 else 0
    {
      if x == b {
        assert LikeIds(db1.notifications, u, blog.createdBy, b) == {};
      }
    }
  }

  lemma PublishPreservesConsistency(db: Db, actor: Option<UserId>, title: string, body: string)
    requires Consistent(db)
    ensures Consistent(Publish(db, actor, title, body).db)
  {
    var r := Publish(db, actor, title, body).db;
    if actor.Some? && title != "" && body != "" {
      var me, b := actor.value, db.nextId;
      var db1 := CreateBlog(db, Blog(title, body, me, []));
      InsertBlogKeepsConsistency(db, Blog(title, body, me, []));
      if me in db.users {
        var fs := Populated(db.users[me].followers, db.users);
        assert r == FanOut(db1, me, b, fs);
        FanOutPreservesConsistency(db1, me, b, fs);
      } else {
        assert r == db1;
      }
    } else {
      assert r == db;
    }
  }

  lemma DeleteBlogPreservesConsistency(db: Db, actor: Option<UserId>, id: BlogId)
    requires Consistent(db)
    ensures Consistent(DeleteBlog(db, actor, id).db)
  {
    var r := DeleteBlog(db, actor, id);
    if r.outcome.Ok? {
      forall x, u | x in r.db.blogs && u in r.db.users
        ensures LikeIds(r.db.notifications, u, r.db.blogs[x].createdBy, x) == LikeIds(db.notifications, u, db.blogs[x].createdBy, x)
      {
      }
      assert IdsIssued(r.db);
    }
  }

  /** The unlike's `deleteOne` removes one matching LIKE notification
      whenever one exists, and nothing otherwise. */
  lemma DropFirstLikeRemovesOne(notifs: map<NotificationId, Notification>, sender: UserId, recipient: UserId, blog: BlogId, bound: nat)
    requires forall id :: id in notifs ==> id < bound
    ensures var d := DropFirstLike(notifs, sender, recipient, blog, bound);
      && (LikeIds(notifs, sender, recipient, blog) == {} ==> d == notifs)
      && (LikeIds(notifs, sender, recipient, blog) != {} ==>
            exists n :: n in LikeIds(notifs, sender, recipient, blog) && d == notifs - {n})
  {
    if LikeIds(notifs, sender, recipient, blog) != {} {
      var n :| n in LikeIds(notifs, sender, recipient, blog);
      assert FirstLike(notifs, sender, recipient, blog, 0, bound).Some?;
    }
  }

  /** The users that are not `me` keep their documents, and `me` changes only
      in `likedBlogs`: the follow graph is untouched. */
  lemma LikedBlogsChangeKeepsFollowGraph(users: map<UserId, User>, me: UserId, liked: seq<BlogId>)
    requires me in users && FollowSymmetric(users) && FollowListsDistinct(users)
    ensures FollowSymmetric(users[me := users[me].(likedBlogs := liked)])
    ensures FollowListsDistinct(users[me := users[me].(likedBlogs := liked)])
  {
    var u2 := users[me := users[me].(likedBlogs := liked)];
    forall a, c | a in u2 && c in u2
      ensures a in u2[c].followers <==> c in u2[a].following
    {
      assert u2[a].following == users[a].following && u2[c].followers == users[c].followers;
    }
  }

  lemma AddLikeKeepsIds(db: Db, me: UserId, b: BlogId)
    requires IdsIssued(db) && b in db.blogs && me in db.users
    ensures IdsIssued(AddLike(db, me, b))
  {
    var r := AddLike(db, me, b);
    forall u, c | u in r.users && c in r.users[u].likedBlogs
      ensures c < r.nextId
    {
      if u == me && c !in db.users[me].likedBlogs {
        assert c == b;
      }
    }
    assert forall id :: id in r.notifications && r.notifications[id].blogId.Some? ==> r.notifications[id].blogId.value < r.nextId;
  }

  /** Liking sets the pair's LIKE-notification count from 0 to 1 and leaves
      every other pair's count alone. */
  lemma AddLikeKeepsLikeNotifications(db: Db, me: UserId, b: BlogId)
    requires IdsIssued(db) && b in db.blogs && me in db.users && me !in db.blogs[b].likes
    requires LikeNotificationsInStep(db.blogs, db.users, db.notifications)
    ensures var r := AddLike(db, me, b);
      LikeNotificationsInStep(r.blogs, r.users, r.notifications)
  {
    var r := AddLike(db, me, b);
    var n := db.nextId;
    var x := r.notifications[n];
    assert r.notifications == db.notifications[n := x];
    forall c, u | c in r.blogs && u in r.users
      ensures |LikeIds(r.notifications, u, r.blogs[c].createdBy, c)| == if u in r.blogs[c].likes then 1 else 0
    {
      LikeCountAfterInsert(db.notifications, n, x, u, db.blogs[c].createdBy, c);
    }
  }

  /** Liking adds `me` to the blog's likes and the blog to `me`'s likedBlogs
      together, and never adds the owner. */
  lemma AddLikeKeepsLikesInStep(db: Db, me: UserId, b: BlogId)
    requires IdsIssued(db) && b in db.blogs && me in db.users && db.blogs[b].createdBy != me
    requires LikesInStep(db.blogs, db.users) && OwnerNotInLikes(db.blogs)
    ensures var r := AddLike(db, me, b);
      LikesInStep(r.blogs, r.users) && OwnerNotInLikes(r.blogs)
  {
    var r := AddLike(db, me, b);
    forall c, u | c in r.blogs && u in r.users
      ensures u in r.blogs[c].likes <==> c in r.users[u].likedBlogs
    {
      if c == b && u == me {
      } else if c == b {
        assert r.blogs[c].likes == db.blogs[c].likes + [me];
      } else if u == me {
        assert r.users[u].likedBlogs == db.users[u].likedBlogs + [b];
      }
    }
  }

  /** The liking half of the toggle keeps the store consistent: the pair
      moves from 0 to 1 LIKE notification together with both arrays. */
  lemma LikeStepKeepsConsistency(db: Db, me: UserId, b: BlogId)
    requires Consistent(db)
    requires b in db.blogs && me in db.users && db.blogs[b].createdBy != me && me !in db.blogs[b].likes
    ensures Consistent(AddLike(db, me, b))
  {
    var r := AddLike(db, me, b);
    AddLikeKeepsIds(db, me, b);
    AddLikeKeepsLikesInStep(db, me, b);
    AddLikeKeepsLikeNotifications(db, me, b);
    assert FollowSymmetric(r.users) && FollowListsDistinct(r.users) by {
      LikedBlogsChangeKeepsFollowGraph(db.users, me, r.users[me].likedBlogs);
      assert r.users == db.users[me := db.users[me].(likedBlogs := r.users[me].likedBlogs)];
    }
    assert OnePendingRequest(r.notifications) by {
      InsertKeepsOnePending(db.notifications, db.nextId, r.notifications[db.nextId]);
      assert r.notifications == db.notifications[db.nextId := r.notifications[db.nextId]];
    }
  }

  /** Unliking sets the pair's LIKE-notification count from 1 to 0 and leaves
      every other pair's count alone. */
  lemma RemoveLikeKeepsLikeNotifications(db: Db, me: UserId, b: BlogId)
    requires IdsIssued(db) && b in db.blogs && me in db.users && me in db.blogs[b].likes
    requires LikeNotificationsInStep(db.blogs, db.users, db.notifications)
    ensures var r := RemoveLike(db, me, b);
      LikeNotificationsInStep(r.blogs, r.users, r.notifications)
  {
    var r := RemoveLike(db, me, b);
    var mine := LikeIds(db.notifications, me, db.blogs[b].createdBy, b);
    assert |mine| == 1;
    var n :| n in mine && r.notifications == db.notifications - {n};
    forall c, u | c in r.blogs && u in r.users
      ensures |LikeIds(r.notifications, u, r.blogs[c].createdBy, c)| == if u in r.blogs[c].likes then 1 else 0
    {
      LikeCountAfterRemove(db.notifications, n, u, db.blogs[c].createdBy, c);
    }
  }

  /** Unliking takes `me` out of the blog's likes and the blog out of `me`'s
      likedBlogs together. */
  lemma RemoveLikeKeepsLikesInStep(db: Db, me: UserId, b: BlogId)
    requires IdsIssued(db) && b in db.blogs && me in db.users
    requires LikesInStep(db.blogs, db.users) && OwnerNotInLikes(db.blogs)
    ensures var r := RemoveLike(db, me, b);
      LikesInStep(r.blogs, r.users) && OwnerNotInLikes(r.blogs)
  {
    var r := RemoveLike(db, me, b);
    forall c, u | c in r.blogs && u in r.users
      ensures u in r.blogs[c].likes <==> c in r.users[u].likedBlogs
    {
      if c != b && u != me {
        assert r.blogs[c] == db.blogs[c] && r.users[u] == db.users[u];
      }
    }
  }

  lemma RemoveLikeKeepsIds(db: Db, me: UserId, b: BlogId)
    requires IdsIssued(db) && b in db.blogs && me in db.users
    ensures IdsIssued(RemoveLike(db, me, b))
  {
    var r := RemoveLike(db, me, b);
    assert forall u, c :: u in r.users && c in r.users[u].likedBlogs ==> c in db.users[u].likedBlogs;
  }

  /** The unliking half of the toggle keeps the store consistent: the pair's
      one LIKE notification goes together with both array entries. */
  lemma UnlikeStepKeepsConsistency(db: Db, me: UserId, b: BlogId)
    requires Consistent(db)
    requires b in db.blogs && me in db.users && me in db.blogs[b].likes
    ensures Consistent(RemoveLike(db, me, b))
  {
    var r := RemoveLike(db, me, b);
    RemoveLikeKeepsIds(db, me, b);
    RemoveLikeKeepsLikesInStep(db, me, b);
    RemoveLikeKeepsLikeNotifications(db, me, b);
    LikedBlogsChangeKeepsFollowGraph(db.users, me, r.users[me].likedBlogs);
    assert r.users == db.users[me := db.users[me].(likedBlogs := r.users[me].likedBlogs)];
  }

  lemma ToggleLikePreservesConsistency(db: Db, actor: Option<UserId>, b: BlogId)
    requires Consistent(db)
    ensures Consistent(ToggleLike(db, actor, b).db)
  {
    if ToggleLike(db, actor, b).outcome.Ok? {
      if actor.value in db.blogs[b].likes {
        UnlikeStepKeepsConsistency(db, actor.value, b);
      } else {
        LikeStepKeepsConsistency(db, actor.value, b);
      }
    }
  }

  /** No recipient got two of the notifications `after` has and `before` lacks. */
  predicate OneNewPerRecipient(before: map<NotificationId, Notification>, after: map<NotificationId, Notification>)
  {
    forall i, j ::
      && i in after && i !in before && j in after && j !in before
      && after[i].recipient == after[j].recipient
      ==> i == j
  }

  /** A fan-out over a duplicate-free list notifies no one twice. */
  lemma {:induction false} FanOutOncePerRecipient(db: Db, sender: UserId, blog: BlogId, fs: seq<UserId>)
    requires forall id :: id in db.notifications ==> id < db.nextId
    requires NoDup(fs)
    ensures OneNewPerRecipient(db.notifications, FanOut(db, sender, blog, fs).notifications)
    decreases |fs|
  {
    if fs != [] {
      var init, last := fs[..|fs| - 1], fs[|fs| - 1];
      assert NoDup(init);
      assert last !in init;
      FanOutOncePerRecipient(db, sender, blog, init);
      FanOutAddsPosts(db, sender, blog, init);
      var prev := FanOut(db, sender, blog, init);
      var r := FanOut(db, sender, blog, fs);
      assert r.notifications == prev.notifications[prev.nextId := Issue(last, sender, Post, Some(blog), POST_MESSAGE)];
    }
  }

  /** With a duplicate-free follower list, no follower gets two notifications
      from one publish. */
  lemma PublishNotifiesEachFollowerOnce(db: Db, me: UserId, title: string, body: string)
    requires IdsIssued(db)
    requires title != "" && body != "" && me in db.users && NoDup(db.users[me].followers)
    ensures OneNewPerRecipient(db.notifications, Publish(db, Some(me), title, body).db.notifications)
  {
    var db1 := CreateBlog(db, Blog(title, body, me, []));
    var fs := Populated(db.users[me].followers, db.users);
    assert Publish(db, Some(me), title, body).db == FanOut(db1, me, db.nextId, fs);
    FanOutOncePerRecipient(db1, me, db.nextId, fs);
  }

  /** Unliking right after liking restores the blog's likes. */
  lemma RemoveLikeUndoesAddLikeOnBlog(db: Db, me: UserId, b: BlogId)
    requires IdsIssued(db) && b in db.blogs && me in db.users && me !in db.blogs[b].likes
    ensures IdsIssued(AddLike(db, me, b))
    ensures RemoveLike(AddLike(db, me, b), me, b).blogs == db.blogs
  {
    AddLikeKeepsIds(db, me, b);
    var db1 := AddLike(db, me, b);
    var blog := db.blogs[b];
    assert db1.blogs == db.blogs[b := blog.(likes := blog.likes + [me])];
    PullAfterPush(blog.likes, me);
  }

  /** Unliking right after liking restores the user's likedBlogs. */
  lemma RemoveLikeUndoesAddLikeOnUser(db: Db, me: UserId, b: BlogId)
    requires IdsIssued(db) && b in db.blogs && me in db.users && b !in db.users[me].likedBlogs
    ensures IdsIssued(AddLike(db, me, b))
    ensures RemoveLike(AddLike(db, me, b), me, b).users == db.users
  {
    AddLikeKeepsIds(db, me, b);
    var db1 := AddLike(db, me, b);
    var user := db.users[me];
    assert db1.users == db.users[me := user.(likedBlogs := user.likedBlogs + [b])];
    PullAfterPush(user.likedBlogs, b);
  }

  /** Unliking right after liking deletes exactly the LIKE notification the
      like created, when the pair had none before. */
  lemma RemoveLikeUndoesAddLikeNotification(db: Db, me: UserId, b: BlogId)
    requires IdsIssued(db) && b in db.blogs && me in db.users
    requires LikeIds(db.notifications, me, db.blogs[b].createdBy, b) == {}
    ensures IdsIssued(AddLike(db, me, b))
    ensures RemoveLike(AddLike(db, me, b), me, b).notifications == db.notifications
  {
    var owner, n := db.blogs[b].createdBy, db.nextId;
    var db1 := AddLike(db, me, b);
    AddLikeKeepsIds(db, me, b);
    LikeIdsAfterInsert(db.notifications, n, db1.notifications[n], me, owner, b);
    assert db1.notifications == db.notifications[n := db1.notifications[n]];
    assert LikeIds(db1.notifications, me, owner, b) == {n};
  }

  /** Unliking right after liking takes back exactly what the like added to
      the blog, the user and the notifications. */
  lemma RemoveLikeUndoesAddLike(db: Db, me: UserId, b: BlogId)
    requires IdsIssued(db) && b in db.blogs && me in db.users
    requires me !in db.blogs[b].likes && b !in db.users[me].likedBlogs
    requires LikeIds(db.notifications, me, db.blogs[b].createdBy, b) == {}
    ensures IdsIssued(AddLike(db, me, b))
    ensures RemoveLike(AddLike(db, me, b), me, b)
      == db.(pushes := db.pushes + [PushEvent(db.blogs[b].createdBy, b)], nextId := db.nextId + 1)
  {
    RemoveLikeUndoesAddLikeOnBlog(db, me, b);
    RemoveLikeUndoesAddLikeOnUser(db, me, b);
    RemoveLikeUndoesAddLikeNotification(db, me, b);
  }

  /** Liking and then unliking restores the blog, the user and the
      notifications exactly; what remains is the push event sent to the owner
      and the id the LIKE notification used. */
  lemma LikeThenUnlikeRestores(db: Db, me: UserId, b: BlogId)
    requires Consistent(db)
    requires ToggleLike(db, Some(me), b).outcome.Ok? && me !in db.blogs[b].likes
    ensures var db1 := ToggleLike(db, Some(me), b).db;
      && IdsIssued(db1)
      && ToggleLike(db1, Some(me), b).outcome.Ok?
      && ToggleLike(db1, Some(me), b).db
         == db.(pushes := db.pushes + [PushEvent(db.blogs[b].createdBy, b)], nextId := db.nextId + 1)
  {
    assert b !in db.users[me].likedBlogs;
    assert LikeIds(db.notifications, me, db.blogs[b].createdBy, b) == {};
    RemoveLikeUndoesAddLike(db, me, b);
    var db1 := AddLike(db, me, b);
    assert me in db1.blogs[b].likes;
  }

  /** Unliking and then liking again, from a liked start: both toggles
      succeed, the blog's likers and the user's liked blogs are the same sets
      as before (the actor now stands at the end of the likes), and the pair
      again has exactly one LIKE notification, under a new id. */
  lemma UnlikeThenLikeRestores(db: Db, me: UserId, b: BlogId)
    requires Consistent(db)
    requires ToggleLike(db, Some(me), b).outcome.Ok? && me in db.blogs[b].likes
    ensures var db1 := ToggleLike(db, Some(me), b).db;
      && IdsIssued(db1)
      && ToggleLike(db1, Some(me), b).outcome.Ok?
      && var db2 := ToggleLike(db1, Some(me), b).db;
      && b in db2.blogs && me in db2.users
      && db2.blogs[b].likes == Pull(db.blogs[b].likes, me) + [me]
      && (forall u :: u in db2.blogs[b].likes <==> u in db.blogs[b].likes)
      && (forall x :: x in db2.users[me].likedBlogs <==> x in db.users[me].likedBlogs)
      && |LikeIds(db2.notifications, me, db.blogs[b].createdBy, b)| == 1
  {
    ToggleLikePreservesConsistency(db, Some(me), b);
    var db1 := ToggleLike(db, Some(me), b).db;
    assert me !in db1.blogs[b].likes;
    ToggleLikePreservesConsistency(db1, Some(me), b);
  }
}
