/** routes/user.js: the follow request (a FOLLOW_REQUEST notification, no
    graph edge yet) and unfollow (pull both sides of the edge). */
module UserRoutes {
  import opened Types
  import opened ArrayOps
  import opened NotificationModel
  import opened Documents
  import opened Consistency

  const FOLLOW_MESSAGE := "wants to follow you"

  /** POST /user/follow/:id. */
  function RequestFollow(db: Db, actor: Option<UserId>, target: UserId): (r: Step)
    requires IdsIssued(db)
    ensures actor.None? ==> r == Step(db, Err(LoginRequired))
    ensures actor.Some? && target == actor.value ==> r == Step(db, Err(SelfTarget))
    ensures actor.Some? && target != actor.value && target !in db.users ==> r == Step(db, Err(NotFound))
    ensures actor.Some? && target != actor.value && target in db.users && HasPendingRequest(db.notifications, actor.value, target)
      ==> r == Step(db, Err(AlreadyRequested))
    ensures r.outcome.Ok? <==>
      actor.Some? && target != actor.value && target in db.users && !HasPendingRequest(db.notifications, actor.value, target)
    ensures r.outcome.Ok? ==>
      var n := db.nextId;
      && n !in db.notifications
      && r.db.notifications.Keys == db.notifications.Keys + {n}
      && |r.db.notifications| == |db.notifications| + 1
      && (forall m :: m in db.notifications ==> r.db.notifications[m] == db.notifications[m])
      && IsPendingRequest(r.db.notifications[n], actor.value, target)
      && r.db.notifications[n].blogId == None && r.db.notifications[n].commentId == None
      && HasPendingRequest(r.db.notifications, actor.value, target)
      && r.db.nextId > db.nextId
      && r.db.(notifications := db.notifications, nextId := db.nextId) == db
  {
    if actor.None? then Step(db, Err(LoginRequired))
    else if target == actor.value then Step(db, Err(SelfTarget))
    else if target !in db.users then Step(db, Err(NotFound))
    else if HasPendingRequest(db.notifications, actor.value, target) then Step(db, Err(AlreadyRequested))
    else
      var n := db.nextId;
      var req := Issue(target, actor.value, FollowRequest, None, FOLLOW_MESSAGE);
      Step(db.(notifications := db.notifications[n := req], nextId := n + 1), Ok)
  }

  /** `User.findByIdAndUpdate(u, {$pull: {following: x}})`; a missing user is
      left alone. */
  function PullFollowing(users: map<UserId, User>, u: UserId, x: UserId): (r: map<UserId, User>)
    ensures r.Keys == users.Keys
    ensures u in users ==> r[u].followers == users[u].followers && r[u].likedBlogs == users[u].likedBlogs
    ensures u in users ==> forall y :: y in r[u].following <==> y in users[u].following && y != x
    ensures forall v :: v in users && v != u ==> r[v] == users[v]
  {
    if u in users then users[u := users[u].(following := Pull(users[u].following, x))] else users
  }

  /** `User.findByIdAndUpdate(u, {$pull: {followers: x}})`. */
  function PullFollower(users: map<UserId, User>, u: UserId, x: UserId): (r: map<UserId, User>)
    ensures r.Keys == users.Keys
    ensures u in users ==> r[u].following == users[u].following && r[u].likedBlogs == users[u].likedBlogs
    ensures u in users ==> forall y :: y in r[u].followers <==> y in users[u].followers && y != x
    ensures forall v :: v in users && v != u ==> r[v] == users[v]
  {
    if u in users then users[u := users[u].(followers := Pull(users[u].followers, x))] else users
  }

  /** POST /user/unfollow/:id. Succeeds whether or not the actor was
      following; afterwards neither side of the edge remains. */
  function Unfollow(db: Db, actor: Option<UserId>, target: UserId): (r: Step)
    ensures actor.None? ==> r == Step(db, Err(LoginRequired))
    ensures actor.Some? && target == actor.value ==> r == Step(db, Err(SelfTarget))
    ensures actor.Some? && target != actor.value && target !in db.users ==> r == Step(db, Err(NotFound))
    ensures r.outcome.Ok? <==> actor.Some? && target != actor.value && target in db.users
    ensures r.outcome.Ok? ==>
      var me := actor.value;
      && r.db.users.Keys == db.users.Keys
      && (me in db.users ==> target !in r.db.users[me].following)
      && actor.value !in r.db.users[target].followers
      && (me in db.users ==> forall y :: y in r.db.users[me].following <==> y in db.users[me].following && y != target)
      && (forall y :: y in r.db.users[target].followers <==> y in db.users[target].followers && y != me)
      && (me in db.users ==> r.db.users[me].followers == db.users[me].followers)
      && r.db.users[target].following == db.users[target].following
      && (forall u :: u in db.users ==> r.db.users[u].likedBlogs == db.users[u].likedBlogs)
      && (forall u :: u in db.users && u != me && u != target ==> r.db.users[u] == db.users[u])
      && ((me !in db.users || target !in db.users[me].following) && me !in db.users[target].followers ==> r.db == db)
      && r.db.(users := db.users) == db
  {
    if actor.None? then Step(db, Err(LoginRequired))
    else if target == actor.value then Step(db, Err(SelfTarget))
    else if target !in db.users then Step(db, Err(NotFound))
    else
      var me := actor.value;
      Step(db.(users := PullFollower(PullFollowing(db.users, me, target), target, me)), Ok)
  }

  lemma RequestFollowPreservesConsistency(db: Db, actor: Option<UserId>, target: UserId)
    requires Consistent(db)
    ensures Consistent(RequestFollow(db, actor, target).db)
  {
    var r := RequestFollow(db, actor, target);
    if r.outcome.Ok? {
      InsertNotificationKeepsConsistency(db, r.db.notifications[db.nextId]);
    }
  }

  /** Unfollowing keeps the follow graph two-sided and duplicate-free. */
  lemma UnfollowKeepsFollowGraph(users: map<UserId, User>, me: UserId, target: UserId)
    requires target in users && me != target
    requires FollowSymmetric(users) && FollowListsDistinct(users)
    ensures FollowSymmetric(PullFollower(PullFollowing(users, me, target), target, me))
    ensures FollowListsDistinct(PullFollower(PullFollowing(users, me, target), target, me))
  {
    var u2 := PullFollower(PullFollowing(users, me, target), target, me);
    forall a, b | a in u2 && b in u2
      ensures a in u2[b].followers <==> b in u2[a].following
    {
      assert a in users[b].followers <==> b in users[a].following;
    }
  }

  lemma UnfollowPreservesConsistency(db: Db, actor: Option<UserId>, target: UserId)
    requires Consistent(db)
    ensures Consistent(Unfollow(db, actor, target).db)
  {
    if Unfollow(db, actor, target).outcome.Ok? {
      UnfollowKeepsFollowGraph(db.users, actor.value, target);
    }
  }

  /** A second request before the first is answered is refused, and the
      collection still holds exactly the one notification the first added. */
  lemma RequestTwiceIsRefused(db: Db, a: UserId, b: UserId)
    requires IdsIssued(db)
    requires RequestFollow(db, Some(a), b).outcome.Ok?
    ensures var db1 := RequestFollow(db, Some(a), b).db;
      && IdsIssued(db1)
      && RequestFollow(db1, Some(a), b) == Step(db1, Err(AlreadyRequested))
      && |db1.notifications| == |db.notifications| + 1
  {
    var db1 := RequestFollow(db, Some(a), b).db;
    assert IsPendingRequest(db1.notifications[db.nextId], a, b);
  }

  /** Unfollowing twice is the same as unfollowing once. */
  lemma UnfollowIdempotent(db: Db, actor: Option<UserId>, target: UserId)
    ensures var r1 := Unfollow(db, actor, target);
      Unfollow(r1.db, actor, target) == r1
  {
  }
}
