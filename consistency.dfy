/** Consistency conditions of the store that every handler preserves: fresh
    ids, the two-sided follow graph, likes kept in step with likedBlogs and
    with LIKE notifications, and at most one pending follow request per pair. */
module Consistency {
  import opened Types
  import opened ArrayOps
  import opened NotificationModel
  import opened Documents

  /** Every blog, comment and notification key, and every blog id that a
      notification or a user's likedBlogs refers to, is below the generator,
      so the ids the generator hands out are fresh. A comment's `blogId` is
      not covered: comment creation stores the id it is given unchecked, so
      it may name an id the generator has not issued yet. */
  ghost predicate IdsIssued(db: Db)
  {
    && (forall b :: b in db.blogs ==> b < db.nextId)
    && (forall c :: c in db.comments ==> c < db.nextId)
    && (forall n :: n in db.notifications ==> n < db.nextId)
    && (forall n :: n in db.notifications && db.notifications[n].blogId.Some? ==> db.notifications[n].blogId.value < db.nextId)
    && (forall u, b :: u in db.users && b in db.users[u].likedBlogs ==> b < db.nextId)
  }

  /** `a` follows `b` on `b`'s record exactly when it does on `a`'s. */
  ghost predicate FollowSymmetric(users: map<UserId, User>)
  {
    forall a, b :: a in users && b in users ==> (a in users[b].followers <==> b in users[a].following)
  }

  ghost predicate FollowListsDistinct(users: map<UserId, User>)
  {
    forall u :: u in users ==> NoDup(users[u].followers) && NoDup(users[u].following)
  }

  /** A user is in a blog's likes exactly when the blog is in the user's likedBlogs. */
  ghost predicate LikesInStep(blogs: map<BlogId, Blog>, users: map<UserId, User>)
  {
    forall b, u :: b in blogs && u in users ==> (u in blogs[b].likes <==> b in users[u].likedBlogs)
  }

  /** No owner is among the likers of their own blog. */
  ghost predicate OwnerNotInLikes(blogs: map<BlogId, Blog>)
  {
    forall b :: b in blogs ==> blogs[b].createdBy !in blogs[b].likes
  }

  predicate IsLikeOf(n: Notification, sender: UserId, recipient: UserId, blog: BlogId)
  {
    n.kind == Like && n.sender == sender && n.recipient == recipient && n.blogId == Some(blog)
  }

  /** The ids of the LIKE notifications from `sender` to `recipient` about `blog`. */
  function LikeIds(notifs: map<NotificationId, Notification>, sender: UserId, recipient: UserId, blog: BlogId): set<NotificationId>
  {
    set id | id in notifs && IsLikeOf(notifs[id], sender, recipient, blog)
  }

  /** Each (user, blog) pair has exactly one LIKE notification to the owner
      while the user likes the blog, and none otherwise. */
  ghost predicate LikeNotificationsInStep(blogs: map<BlogId, Blog>, users: map<UserId, User>, notifs: map<NotificationId, Notification>)
  {
    forall b, u :: b in blogs && u in users ==>
      |LikeIds(notifs, u, blogs[b].createdBy, b)| == if u in blogs[b].likes then 1 else 0
  }

  predicate IsPendingRequest(n: Notification, sender: UserId, recipient: UserId)
  {
    n.kind == FollowRequest && n.status == Pending && n.sender == sender && n.recipient == recipient
  }

  /** The dedup query of the follow handler. */
  predicate HasPendingRequest(notifs: map<NotificationId, Notification>, sender: UserId, recipient: UserId)
  {
    exists id :: id in notifs && IsPendingRequest(notifs[id], sender, recipient)
  }

  /** At most one open follow request per (sender, recipient). */
  ghost predicate OnePendingRequest(notifs: map<NotificationId, Notification>)
  {
    forall i, j ::
      && i in notifs && j in notifs
      && IsPendingRequest(notifs[i], notifs[i].sender, notifs[i].recipient)
      && IsPendingRequest(notifs[j], notifs[i].sender, notifs[i].recipient)
      ==> i == j
  }

  ghost predicate Consistent(db: Db)
  {
    && IdsIssued(db)
    && FollowSymmetric(db.users)
    && FollowListsDistinct(db.users)
    && LikesInStep(db.blogs, db.users)
    && OwnerNotInLikes(db.blogs)
    && LikeNotificationsInStep(db.blogs, db.users, db.notifications)
    && OnePendingRequest(db.notifications)
  }

  /** Changing one notification's status to a non-PENDING value keeps every
      LIKE set and the single-pending-request property. */
  lemma StatusChangeKeepsNotificationInvariants(notifs: map<NotificationId, Notification>, id: NotificationId, st: Status)
    requires id in notifs && st != Pending
    requires OnePendingRequest(notifs)
    ensures forall s, r, b :: LikeIds(notifs[id := notifs[id].(status := st)], s, r, b) == LikeIds(notifs, s, r, b)
    ensures OnePendingRequest(notifs[id := notifs[id].(status := st)])
  {
    var n' := notifs[id := notifs[id].(status := st)];
    forall s, r, b
      ensures LikeIds(n', s, r, b) == LikeIds(notifs, s, r, b)
    {
      assert forall x :: x in n' ==> (IsLikeOf(n'[x], s, r, b) <==> IsLikeOf(notifs[x], s, r, b));
    }
  }

  /** Inserting a notification that is not a LIKE leaves every LIKE set alone. */
  lemma InsertKeepsLikeIds(notifs: map<NotificationId, Notification>, n: NotificationId, x: Notification)
    requires n !in notifs && x.kind != Like
    ensures forall s, r, b :: LikeIds(notifs[n := x], s, r, b) == LikeIds(notifs, s, r, b)
  {
  }

  /** Inserting a notification keeps at most one open request per pair,
      provided it is not a second open request for its pair. */
  lemma InsertKeepsOnePending(notifs: map<NotificationId, Notification>, n: NotificationId, x: Notification)
    requires OnePendingRequest(notifs) && n !in notifs
    requires IsPendingRequest(x, x.sender, x.recipient) ==> !HasPendingRequest(notifs, x.sender, x.recipient)
    ensures OnePendingRequest(notifs[n := x])
  {
    var ns := notifs[n := x];
    forall i, j | i in ns && j in ns && IsPendingRequest(ns[i], ns[i].sender, ns[i].recipient)
        && IsPendingRequest(ns[j], ns[i].sender, ns[i].recipient)
      ensures i == j
    {
    }
  }

  /** Creating one non-LIKE notification under a fresh id keeps the store
      consistent, unless it would be a second open request for its pair. */
  lemma InsertNotificationKeepsConsistency(db: Db, x: Notification)
    requires Consistent(db) && x.kind != Like
    requires x.blogId.Some? ==> x.blogId.value <= db.nextId
    requires IsPendingRequest(x, x.sender, x.recipient) ==> !HasPendingRequest(db.notifications, x.sender, x.recipient)
    ensures Consistent(db.(notifications := db.notifications[db.nextId := x], nextId := db.nextId + 1))
  {
    var db' := db.(notifications := db.notifications[db.nextId := x], nextId := db.nextId + 1);
    InsertKeepsLikeIds(db.notifications, db.nextId, x);
    InsertKeepsOnePending(db.notifications, db.nextId, x);
    assert IdsIssued(db');
  }

  /** Removing one notification removes at most that id from every LIKE set. */
  lemma LikeIdsAfterRemove(notifs: map<NotificationId, Notification>, n: NotificationId, sender: UserId, recipient: UserId, blog: BlogId)
    ensures LikeIds(notifs - {n}, sender, recipient, blog) == LikeIds(notifs, sender, recipient, blog) - {n}
  {
  }

  /** Inserting a notification under a fresh id adds that id to exactly the
      LIKE set it belongs to. */
  lemma LikeIdsAfterInsert(notifs: map<NotificationId, Notification>, n: NotificationId, x: Notification, sender: UserId, recipient: UserId, blog: BlogId)
    requires n !in notifs
    ensures LikeIds(notifs[n := x], sender, recipient, blog)
      == LikeIds(notifs, sender, recipient, blog) + (if IsLikeOf(x, sender, recipient, blog) then {n} else {})
  {
  }

  /** The consistency conditions do not look at the push log. */
  lemma ConsistentIgnoresPushes(db: Db, pushes: seq<PushEvent>)
    requires Consistent(db)
    ensures Consistent(db.(pushes := pushes))
  {
    var db' := db.(pushes := pushes);
    assert IdsIssued(db');
  }

  /** Inserting a notification under a fresh id raises the count of the LIKE
      set it belongs to by one and leaves every other count alone. */
  lemma LikeCountAfterInsert(notifs: map<NotificationId, Notification>, n: NotificationId, x: Notification, sender: UserId, recipient: UserId, blog: BlogId)
    requires n !in notifs
    ensures |LikeIds(notifs[n := x], sender, recipient, blog)|
      == |LikeIds(notifs, sender, recipient, blog)| + (if IsLikeOf(x, sender, recipient, blog) then 1 else 0)
  {
    LikeIdsAfterInsert(notifs, n, x, sender, recipient, blog);
  }

  /** Removing one notification lowers the count of the LIKE set it belongs
      to by one and leaves every other count alone. */
  lemma LikeCountAfterRemove(notifs: map<NotificationId, Notification>, n: NotificationId, sender: UserId, recipient: UserId, blog: BlogId)
    requires n in notifs
    ensures |LikeIds(notifs - {n}, sender, recipient, blog)|
      == |LikeIds(notifs, sender, recipient, blog)| - (if IsLikeOf(notifs[n], sender, recipient, blog) then 1 else 0)
  {
    LikeIdsAfterRemove(notifs, n, sender, recipient, blog);
    if !IsLikeOf(notifs[n], sender, recipient, blog) {
      assert LikeIds(notifs - {n}, sender, recipient, blog) == LikeIds(notifs, sender, recipient, blog);
    }
  }
}
