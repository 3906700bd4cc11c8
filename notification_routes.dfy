/** routes/notification.js: accept, reject and read, the recipient-driven
    transitions of a notification. */
module NotificationRoutes {
  import opened Types
  import opened ArrayOps
  import opened NotificationModel
  import opened Documents
  import opened Consistency

  /** The check shared by the three handlers: the notification exists and is
      addressed to the logged-in actor. */
  predicate Addressed(db: Db, actor: Option<UserId>, id: NotificationId)
  {
    actor.Some? && id in db.notifications && db.notifications[id].recipient == actor.value
  }

  predicate IsOpenFollowRequest(n: Notification)
  {
    n.kind == FollowRequest && n.status == Pending
  }

  /** `findByIdAndUpdate(id, {status})`. */
  function SetStatus(notifs: map<NotificationId, Notification>, id: NotificationId, st: Status): (r: map<NotificationId, Notification>)
    requires id in notifs
    ensures r.Keys == notifs.Keys
    ensures r[id].status == st && r[id].(status := notifs[id].status) == notifs[id]
    ensures forall n :: n in notifs && n != id ==> r[n] == notifs[n]
  {
    notifs[id := notifs[id].(status := st)]
  }

  /** `User.findByIdAndUpdate(u, {$addToSet: {followers: f}})`; a missing
      user is left alone. */
  function AddFollower(users: map<UserId, User>, u: UserId, f: UserId): (r: map<UserId, User>)
    ensures r.Keys == users.Keys
    ensures u in users ==> r[u].following == users[u].following && r[u].likedBlogs == users[u].likedBlogs
    ensures u in users ==> forall x :: x in r[u].followers <==> x in users[u].followers || x == f
    ensures forall v :: v in users && v != u ==> r[v] == users[v]
  {
    if u in users then users[u := users[u].(followers := AddToSet(users[u].followers, f))] else users
  }

  /** `User.findByIdAndUpdate(u, {$addToSet: {following: f}})`. */
  function AddFollowing(users: map<UserId, User>, u: UserId, f: UserId): (r: map<UserId, User>)
    ensures r.Keys == users.Keys
    ensures u in users ==> r[u].followers == users[u].followers && r[u].likedBlogs == users[u].likedBlogs
    ensures u in users ==> forall x :: x in r[u].following <==> x in users[u].following || x == f
    ensures forall v :: v in users && v != u ==> r[v] == users[v]
  {
    if u in users then users[u := users[u].(following := AddToSet(users[u].following, f))] else users
  }

  /** POST /notification/accept/:id. On success the sender joins the actor's
      followers, the actor joins the sender's following (each only once, and
      only on records that exist), and the request becomes ACCEPTED. */
  function Accept(db: Db, actor: Option<UserId>, id: NotificationId): (r: Step)
    ensures actor.None? ==> r == Step(db, Err(LoginRequired))
    ensures actor.Some? && !Addressed(db, actor, id) ==> r == Step(db, Err(NotFoundOrUnauthorized))
    ensures Addressed(db, actor, id) && !IsOpenFollowRequest(db.notifications[id]) ==> r == Step(db, Err(InvalidState))
    ensures r.outcome.Ok? <==> Addressed(db, actor, id) && IsOpenFollowRequest(db.notifications[id])
    ensures r.outcome.Ok? ==>
      var me, s := actor.value, db.notifications[id].sender;
      && r.db.notifications.Keys == db.notifications.Keys
      && r.db.notifications[id] == db.notifications[id].(status := Accepted)
      && (forall n :: n in db.notifications && n != id ==> r.db.notifications[n] == db.notifications[n])
      && r.db.users.Keys == db.users.Keys
      && (me in db.users ==> s in r.db.users[me].followers)
      && (s in db.users ==> me in r.db.users[s].following)
      && (me in db.users ==> forall x :: x in r.db.users[me].followers <==> x in db.users[me].followers || x == s)
      && (s in db.users ==> forall x :: x in r.db.users[s].following <==> x in db.users[s].following || x == me)
      && (me in db.users && s in db.users[me].followers ==> r.db.users[me].followers == db.users[me].followers)
      && (s in db.users && me in db.users[s].following ==> r.db.users[s].following == db.users[s].following)
      && (me in db.users && me != s ==> r.db.users[me].following == db.users[me].following)
      && (s in db.users && s != me ==> r.db.users[s].followers == db.users[s].followers)
      && (forall u :: u in db.users ==> r.db.users[u].likedBlogs == db.users[u].likedBlogs)
      && (forall u :: u in db.users && u != me && u != s ==> r.db.users[u] == db.users[u])
      && r.db.(users := db.users, notifications := db.notifications) == db
  {
    if actor.None? then Step(db, Err(LoginRequired))
    else if !Addressed(db, actor, id) then Step(db, Err(NotFoundOrUnauthorized))
    else if !IsOpenFollowRequest(db.notifications[id]) then Step(db, Err(InvalidState))
    else
      var me, s := actor.value, db.notifications[id].sender;
      var users := AddFollowing(AddFollower(db.users, me, s), s, me);
      Step(db.(users := users, notifications := SetStatus(db.notifications, id, Accepted)), Ok)
  }

  /** POST /notification/reject/:id: same checks as accept; on success only
      the status changes, to REJECTED. */
  function Reject(db: Db, actor: Option<UserId>, id: NotificationId): (r: Step)
    ensures actor.None? ==> r == Step(db, Err(LoginRequired))
    ensures actor.Some? && !Addressed(db, actor, id) ==> r == Step(db, Err(NotFoundOrUnauthorized))
    ensures Addressed(db, actor, id) && !IsOpenFollowRequest(db.notifications[id]) ==> r == Step(db, Err(InvalidState))
    ensures r.outcome.Ok? <==> Addressed(db, actor, id) && IsOpenFollowRequest(db.notifications[id])
    ensures r.outcome.Ok? ==>
      && r.db.notifications.Keys == db.notifications.Keys
      && r.db.notifications[id] == db.notifications[id].(status := Rejected)
      && (forall n :: n in db.notifications && n != id ==> r.db.notifications[n] == db.notifications[n])
      && r.db.(notifications := db.notifications) == db
  {
    if actor.None? then Step(db, Err(LoginRequired))
    else if !Addressed(db, actor, id) then Step(db, Err(NotFoundOrUnauthorized))
    else if !IsOpenFollowRequest(db.notifications[id]) then Step(db, Err(InvalidState))
    else Step(db.(notifications := SetStatus(db.notifications, id, Rejected)), Ok)
  }

  /** POST /notification/read/:id: whatever the type and prior status, the
      addressed notification becomes READ. */
  function MarkRead(db: Db, actor: Option<UserId>, id: NotificationId): (r: Step)
    ensures actor.None? ==> r == Step(db, Err(LoginRequired))
    ensures actor.Some? && !Addressed(db, actor, id) ==> r == Step(db, Err(NotFoundOrUnauthorized))
    ensures r.outcome.Ok? <==> Addressed(db, actor, id)
    ensures r.outcome.Ok? ==>
      && r.db.notifications.Keys == db.notifications.Keys
      && r.db.notifications[id] == db.notifications[id].(status := Read)
      && (forall n :: n in db.notifications && n != id ==> r.db.notifications[n] == db.notifications[n])
      && r.db.(notifications := db.notifications) == db
  {
    if actor.None? then Step(db, Err(LoginRequired))
    else if !Addressed(db, actor, id) then Step(db, Err(NotFoundOrUnauthorized))
    else Step(db.(notifications := SetStatus(db.notifications, id, Read)), Ok)
  }

  /** Membership after both `$addToSet`s of an accept: only `me` gains a
      follower (`s`) and only `s` gains a followed user (`me`). */
  lemma AcceptEdges(users: map<UserId, User>, me: UserId, s: UserId, u: UserId, x: UserId)
    requires u in users
    ensures var u2 := AddFollowing(AddFollower(users, me, s), s, me);
      && u in u2
      && (x in u2[u].followers <==> x in users[u].followers || (u == me && x == s))
      && (x in u2[u].following <==> x in users[u].following || (u == s && x == me))
  {
  }

  /** Accepting keeps the follow graph two-sided: the one edge added is
      recorded on both ends. */
  lemma AcceptKeepsFollowSymmetric(users: map<UserId, User>, me: UserId, s: UserId)
    requires FollowSymmetric(users)
    ensures FollowSymmetric(AddFollowing(AddFollower(users, me, s), s, me))
  {
    var u2 := AddFollowing(AddFollower(users, me, s), s, me);
    forall a, b | a in u2 && b in u2
      ensures a in u2[b].followers <==> b in u2[a].following
    {
      AcceptEdges(users, me, s, b, a);
      AcceptEdges(users, me, s, a, b);
    }
  }

  /** `$addToSet` never lists a user twice. */
  lemma AcceptKeepsFollowListsDistinct(users: map<UserId, User>, me: UserId, s: UserId)
    requires FollowListsDistinct(users)
    ensures FollowListsDistinct(AddFollowing(AddFollower(users, me, s), s, me))
  {
    var u1 := AddFollower(users, me, s);
    assert FollowListsDistinct(u1);
  }

  lemma AcceptPreservesConsistency(db: Db, actor: Option<UserId>, id: NotificationId)
    requires Consistent(db)
    ensures Consistent(Accept(db, actor, id).db)
  {
    var r := Accept(db, actor, id);
    if r.outcome.Ok? {
      var me, s := actor.value, db.notifications[id].sender;
      AcceptKeepsFollowSymmetric(db.users, me, s);
      AcceptKeepsFollowListsDistinct(db.users, me, s);
      StatusChangeKeepsNotificationInvariants(db.notifications, id, Accepted);
    }
  }

  lemma RejectPreservesConsistency(db: Db, actor: Option<UserId>, id: NotificationId)
    requires Consistent(db)
    ensures Consistent(Reject(db, actor, id).db)
  {
    var r := Reject(db, actor, id);
    if r.outcome.Ok? {
      StatusChangeKeepsNotificationInvariants(db.notifications, id, Rejected);
    }
  }

  lemma MarkReadPreservesConsistency(db: Db, actor: Option<UserId>, id: NotificationId)
    requires Consistent(db)
    ensures Consistent(MarkRead(db, actor, id).db)
  {
    var r := MarkRead(db, actor, id);
    if r.outcome.Ok? {
      StatusChangeKeepsNotificationInvariants(db.notifications, id, Read);
    }
  }
}
