/** POST /subscription/save of routes/subscription.js: store the push
    credentials of a browser endpoint for the signed-in user, with one record
    per (user, endpoint) pair. */
module SubscriptionRoutes {
  import opened Types
  import opened Documents
  import opened Consistency

  /** `findOneAndUpdate({user, endpoint}, {...}, {upsert: true})`. `keys` is
      None when the body carries no `keys` object: reading `keys.p256dh` then
      throws and the handler answers 500. */
  function Save(db: Db, actor: Option<UserId>, endpoint: string, keys: Option<PushKeys>): (r: Step)
    ensures actor.None? ==> r == Step(db, Err(LoginRequired))
    ensures actor.Some? && keys.None? ==> r == Step(db, Err(Failed))
    ensures r.outcome.Ok? <==> actor.Some? && keys.Some?
    ensures r.outcome.Ok? ==>
      && r.db.subscriptions.Keys == db.subscriptions.Keys + {(actor.value, endpoint)}
      && r.db.subscriptions[(actor.value, endpoint)] == keys.value
      && (forall k :: k in db.subscriptions && k != (actor.value, endpoint) ==> r.db.subscriptions[k] == db.subscriptions[k])
      && r.db.(subscriptions := db.subscriptions) == db
  {
    if actor.None? then Step(db, Err(LoginRequired))
    else if keys.None? then Step(db, Err(Failed))
    else Step(db.(subscriptions := db.subscriptions[(actor.value, endpoint) := keys.value]), Ok)
  }

  /** Saving touches no collection the consistency conditions speak about. */
  lemma SavePreservesConsistency(db: Db, actor: Option<UserId>, endpoint: string, keys: Option<PushKeys>)
    requires Consistent(db)
    ensures Consistent(Save(db, actor, endpoint, keys).db)
  {
    var r := Save(db, actor, endpoint, keys).db;
    assert IdsIssued(r);
  }

  /** Saving the same credentials twice is the same as saving them once: the
      upsert finds the record the first call created instead of adding one. */
  lemma SaveIdempotent(db: Db, me: UserId, endpoint: string, keys: PushKeys)
    ensures var once := Save(db, Some(me), endpoint, Some(keys)).db;
      Save(once, Some(me), endpoint, Some(keys)) == Step(once, Ok)
  {
    var once := Save(db, Some(me), endpoint, Some(keys)).db;
    assert once.subscriptions[(me, endpoint) := keys] == once.subscriptions;
  }

  /** A later save for the same endpoint replaces the credentials of an
      earlier one; the earlier keys leave no trace. */
  lemma SaveOverwrites(db: Db, me: UserId, endpoint: string, first: PushKeys, second: PushKeys)
    ensures var once := Save(db, Some(me), endpoint, Some(first)).db;
      Save(once, Some(me), endpoint, Some(second)) == Save(db, Some(me), endpoint, Some(second))
  {
    var once := Save(db, Some(me), endpoint, Some(first)).db;
    assert once.subscriptions[(me, endpoint) := second] == db.subscriptions[(me, endpoint) := second];
  }

  /** Saves for different (user, endpoint) pairs commute: each endpoint keeps
      its own record. */
  lemma SavesCommute(db: Db, a: UserId, ea: string, ka: PushKeys, b: UserId, eb: string, kb: PushKeys)
    requires (a, ea) != (b, eb)
    ensures Save(Save(db, Some(a), ea, Some(ka)).db, Some(b), eb, Some(kb)).db
         == Save(Save(db, Some(b), eb, Some(kb)).db, Some(a), ea, Some(ka)).db
  {
    var s := db.subscriptions;
    var one: map<(UserId, string), PushKeys> := s[(a, ea) := ka][(b, eb) := kb];
    var other: map<(UserId, string), PushKeys> := s[(b, eb) := kb][(a, ea) := ka];
    assert one == other;
  }
}
