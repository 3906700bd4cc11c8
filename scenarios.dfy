/** Handler sequences a user goes through: a follow request answered by its
    recipient, and a request that may be sent again once answered. */
module Scenarios {
  import opened Types
  import opened NotificationModel
  import opened Documents
  import opened Consistency
  import opened NotificationRoutes
  import opened UserRoutes

  /** Once the one pending request from `a` to `b` is answered, none is
      pending any more. */
  lemma AnsweredRequestNotPending(notifs: map<NotificationId, Notification>, n: NotificationId, a: UserId, b: UserId, st: Status)
    requires OnePendingRequest(notifs)
    requires n in notifs && IsPendingRequest(notifs[n], a, b) && st != Pending
    ensures !HasPendingRequest(notifs[n := notifs[n].(status := st)], a, b)
  {
    var after := notifs[n := notifs[n].(status := st)];
    forall m | m in after
      ensures !IsPendingRequest(after[m], a, b)
    {
      if m != n {
        assert IsPendingRequest(notifs[n], notifs[n].sender, notifs[n].recipient);
      }
    }
  }

  /** `a` asks to follow `b` and `b` accepts the request just created: the
      edge exists on both records, the request is ACCEPTED, and `a` may ask
      again because no request of theirs to `b` is pending any more. */
  lemma FollowThenAccept(db: Db, a: UserId, b: UserId, asked: Step, accepted: Step)
    requires Consistent(db)
    requires a != b && a in db.users && b in db.users
    requires !HasPendingRequest(db.notifications, a, b)
    requires asked == RequestFollow(db, Some(a), b)
    requires accepted == Accept(asked.db, Some(b), db.nextId)
    ensures
      && asked.outcome == Ok
      && accepted.outcome == Ok
      && b in accepted.db.users && a in accepted.db.users[b].followers
      && a in accepted.db.users && b in accepted.db.users[a].following
      && db.nextId in accepted.db.notifications && accepted.db.notifications[db.nextId].status == Accepted
      && !HasPendingRequest(accepted.db.notifications, a, b)
      && Consistent(accepted.db)
      && RequestFollow(accepted.db, Some(a), b).outcome == Ok
  {
    RequestFollowPreservesConsistency(db, Some(a), b);
    AcceptPreservesConsistency(asked.db, Some(b), db.nextId);
    AnsweredRequestNotPending(asked.db.notifications, db.nextId, a, b, Accepted);
    assert accepted.db.notifications == asked.db.notifications[db.nextId := asked.db.notifications[db.nextId].(status := Accepted)];
  }

  /** `a` asks to follow `b` and `b` rejects: nobody follows anybody new,
      the request is REJECTED, and `a` may ask again. */
  lemma FollowThenReject(db: Db, a: UserId, b: UserId, asked: Step, rejected: Step)
    requires Consistent(db)
    requires a != b && a in db.users && b in db.users
    requires !HasPendingRequest(db.notifications, a, b)
    requires asked == RequestFollow(db, Some(a), b)
    requires rejected == Reject(asked.db, Some(b), db.nextId)
    ensures
      && rejected.outcome == Ok
      && rejected.db.users == db.users
      && db.nextId in rejected.db.notifications && rejected.db.notifications[db.nextId].status == Rejected
      && Consistent(rejected.db)
      && RequestFollow(rejected.db, Some(a), b).outcome == Ok
  {
    RequestFollowPreservesConsistency(db, Some(a), b);
    RejectPreservesConsistency(asked.db, Some(b), db.nextId);
    AnsweredRequestNotPending(asked.db.notifications, db.nextId, a, b, Rejected);
    assert rejected.db.notifications == asked.db.notifications[db.nextId := asked.db.notifications[db.nextId].(status := Rejected)];
  }

  /** Reading a pending follow request answers it in neither direction, yet
      it also stops counting as pending: the handler does not check the
      type, so after a READ the sender may ask again while no edge exists. */
  lemma FollowThenRead(db: Db, a: UserId, b: UserId, asked: Step, read: Step)
    requires Consistent(db)
    requires a != b && a in db.users && b in db.users
    requires !HasPendingRequest(db.notifications, a, b)
    requires asked == RequestFollow(db, Some(a), b)
    requires read == MarkRead(asked.db, Some(b), db.nextId)
    ensures
      && read.outcome == Ok
      && read.db.users == db.users
      && Accept(read.db, Some(b), db.nextId).outcome == Err(InvalidState)
      && Consistent(read.db)
      && RequestFollow(read.db, Some(a), b).outcome == Ok
  {
    RequestFollowPreservesConsistency(db, Some(a), b);
    MarkReadPreservesConsistency(asked.db, Some(b), db.nextId);
    AnsweredRequestNotPending(asked.db.notifications, db.nextId, a, b, Read);
    assert read.db.notifications == asked.db.notifications[db.nextId := asked.db.notifications[db.nextId].(status := Read)];
  }
}
