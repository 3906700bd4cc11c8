# Blogifyer2 social graph and notifications, in Dafny

This project models the server-side rules of the Blogifyer2 blogging app that change its
social graph, its content graph and its notifications:

- the Notification record: its `type` and `status` enums, the PENDING default and the null
  references by default;
- the notification handlers: accept, reject and mark-as-read;
- the follow request, with its check for a request that is still PENDING, and unfollow;
- blog publishing, with one POST notification and one push event per follower;
- blog deletion, which also deletes the blog's comments and notifications;
- the blog like toggle, which keeps `blog.likes`, `user.likedBlogs` and the LIKE
  notification in step;
- comment creation, owner-only deletion, like and unlike;
- the push-subscription upsert, keyed by (user, endpoint).

The collections form one value, `Documents.Db`. Each handler is a function from a `Db`, an
optional actor and the request parameters to a `Step`: the new `Db` and an `Outcome`.
`Ok` stands for the success redirect. `Err(reason)` names which error redirect the handler
takes. Every failing path leaves the `Db` unchanged, except the one publish path noted
below. `Storage.Store` is the same database as a class. Its fields are the collections,
and it has one method per handler. Each method makes the handler's updates in place: a
`$addToSet`, a `$pull`, a push, a status overwrite, the publish loop over the followers.
Each method is proved to reach the state and outcome of the handler's function. Each also
keeps the class invariant `Valid`.

`Consistency.Consistent` is that invariant. It has these parts:

- every blog, comment and notification id, and every blog id that a notification or a
  user's `likedBlogs` refers to, is below the id generator, so each fresh id is new. A
  comment's `blogId` is not covered (see "## Left out");
- the follow graph is two-sided: `a` is in `b.followers` exactly when `b` is in
  `a.following`;
- the follow lists have no duplicates;
- a user is in `blog.likes` exactly when the blog is in `user.likedBlogs`;
- no owner likes their own blog;
- each (liker, blog) pair in `likes` has exactly one LIKE notification to the owner, and a
  pair not in `likes` has none;
- at most one FOLLOW_REQUEST per (sender, recipient) is PENDING.

Every handler is proved to preserve it. The comment handlers also keep each comment's
`likes` free of duplicates.

Ids are natural numbers drawn from one counter, `nextId`, that stands for ObjectId
generation. Strings are `seq<char>`. A missing or empty string field that the schema marks
`required` becomes the empty string, which creation rejects. A required object that is
absent becomes `None`.

## Model

| member | source | states |
|---|---|---|
| NotificationModel.ParseKind | models/notification.js:7-11 | the `type` enum check accepts exactly FOLLOW_REQUEST, LIKE, COMMENT and POST, and an accepted name maps to a kind with that name |
| NotificationModel.ParseStatus | models/notification.js:14-18 | the `status` enum check accepts exactly PENDING, ACCEPTED, REJECTED and READ, and an accepted name maps to a status with that name |
| NotificationModel.KindNameRoundTrip | models/notification.js:7-11 | every kind's stored name passes the enum check and parses back to the same kind |
| NotificationModel.StatusNameRoundTrip | models/notification.js:14-18 | every status's stored name passes the enum check and parses back to the same status |
| NotificationModel.Create | models/notification.js:3-22 | creation succeeds iff recipient, sender, type and a non-empty message are given and the enums are valid; the record keeps the given fields, the status defaults to PENDING, and blogId/commentId stay null unless given |
| NotificationModel.Issue | models/notification.js:5-19 | a handler's `Notification.create` with recipient, sender, type, optional blogId and message is accepted and yields a PENDING notification with a null commentId and exactly those fields |
| ArrayOps.AddToSet | routes/notification.js:56-57 | `$addToSet`: the result holds the old elements plus `x`, is unchanged when `x` was present, grows by at most one, and stays duplicate-free |
| ArrayOps.Pull | routes/user.js:127-128 | `$pull` and the filter of an unlike: the result holds exactly the elements other than `x`, each as many times as before (the multiset with `x`'s count set to zero), is unchanged when `x` was absent, and stays duplicate-free |
| ArrayOps.PullAfterPush | routes/comments.js:56-79 | pushing an absent id and then pulling it gives back the original list |
| ArrayOps.PullKeepsOrder | routes/comments.js:78 | pulling `x` from `a + [x] + b` leaves `a + b`: the others keep their order |
| NotificationRoutes.SetStatus | routes/notification.js:58 | `findByIdAndUpdate(id, {status})` changes that record's status and nothing else |
| NotificationRoutes.Addressed | routes/notification.js:46-49 | the check the three handlers share (also at lines 75-78 and 99-102): the notification exists and its recipient is the signed-in actor |
| NotificationRoutes.AddFollower | routes/notification.js:56 | adds `f` to `u`'s followers only (set membership), leaves a missing user and every other user alone |
| NotificationRoutes.AddFollowing | routes/notification.js:57 | adds `f` to `u`'s following only, leaves a missing user and every other user alone |
| NotificationRoutes.Accept | routes/notification.js:40-66 | anonymous actor: LoginRequired; missing or not addressed to the actor: NotFoundOrUnauthorized; not a PENDING FOLLOW_REQUEST: InvalidState; all three with no change. On success the sender is in the actor's followers, the actor is in the sender's following (no duplicate added), the request is ACCEPTED, and no other user, list or notification changes |
| NotificationRoutes.Reject | routes/notification.js:69-90 | same guards as accept; on success only the addressed notification changes, to REJECTED, and no follow list changes |
| NotificationRoutes.MarkRead | routes/notification.js:93-110 | recipient check only; on success the notification becomes READ whatever its type and prior status, and nothing else changes |
| NotificationRoutes.AcceptKeepsFollowSymmetric | routes/notification.js:55-59 | the two `$addToSet`s of an accept keep the follow graph two-sided |
| NotificationRoutes.AcceptKeepsFollowListsDistinct | routes/notification.js:56-57 | the follow lists stay duplicate-free after an accept |
| NotificationRoutes.AcceptPreservesConsistency | routes/notification.js:40-66 | accept keeps every consistency condition |
| NotificationRoutes.RejectPreservesConsistency | routes/notification.js:69-90 | reject keeps every consistency condition |
| NotificationRoutes.MarkReadPreservesConsistency | routes/notification.js:93-110 | mark-as-read keeps every consistency condition, including the LIKE-notification count, because READ keeps a LIKE a LIKE |
| UserRoutes.RequestFollow | routes/user.js:62-105 | anonymous: LoginRequired; self: SelfTarget; unknown target: NotFound; a PENDING request from actor to target: AlreadyRequested; all with no change. On success exactly one notification is added under a fresh id: a PENDING FOLLOW_REQUEST from actor to target with no blog or comment; the users are unchanged |
| Consistency.HasPendingRequest | routes/user.js:81-86 | the dedup `findOne`: some notification is a PENDING FOLLOW_REQUEST from the sender to the recipient |
| UserRoutes.PullFollowing | routes/user.js:127 | removes `x` from `u`'s following only |
| UserRoutes.PullFollower | routes/user.js:128 | removes `x` from `u`'s followers only |
| UserRoutes.Unfollow | routes/user.js:108-136 | anonymous, self and unknown target fail with no change; on success the target is in neither of the actor's following nor the actor in the target's followers, other entries and users are kept, and a non-follower's unfollow leaves the store unchanged |
| UserRoutes.RequestFollowPreservesConsistency | routes/user.js:81-98 | a follow request keeps every consistency condition, in particular at most one PENDING request per pair |
| UserRoutes.UnfollowKeepsFollowGraph | routes/user.js:126-129 | the two `$pull`s keep the follow graph two-sided and duplicate-free |
| UserRoutes.UnfollowPreservesConsistency | routes/user.js:108-136 | unfollow keeps every consistency condition |
| UserRoutes.RequestTwiceIsRefused | routes/user.js:81-90 | a second request before the first is answered is refused as AlreadyRequested; the first added exactly one notification |
| UserRoutes.UnfollowIdempotent | routes/user.js:126-129 | unfollowing twice has the same result as unfollowing once |
| Scenarios.FollowThenAccept | routes/user.js:81-98 | a request followed by the target's accept succeeds and creates the edge on both records. The request is then ACCEPTED and no longer PENDING, so a new request from the same sender is accepted |
| Scenarios.FollowThenReject | routes/notification.js:84 | after a reject, no follow list has changed, the request is REJECTED and a new request is allowed |
| Scenarios.FollowThenRead | routes/notification.js:99-104 | reading a pending request succeeds and adds no edge. A later accept of that request fails as InvalidState, and a new request is allowed |
| BlogRoutes.Populated | routes/blog.js:54 | `populate("followers")` keeps exactly the followers that have a User record, never lengthens the list, and adds no duplicates |
| BlogRoutes.NotifyFollower | routes/blog.js:56-72 | one pass of the follower loop: a POST notification to the follower under the next id, then one push event to that follower about the blog |
| BlogRoutes.FanOut | routes/blog.js:55-73 | the publish loop advances the id counter by one per follower, adds notifications only under the new ids, and changes only notifications, pushes and the counter |
| BlogRoutes.CreateBlog | routes/blog.js:45-51 | `Blog.create` stores the blog under a fresh id, keeps every other blog, and changes nothing but the blogs and the id counter |
| BlogRoutes.FanOutKeepsEarlier | routes/blog.js:55-62 | the loop keeps every earlier notification and adds exactly one per follower |
| BlogRoutes.FanOutIssues | routes/blog.js:55-62 | the k-th follower's notification sits under the k-th new id and is a PENDING POST from the author about the new blog |
| BlogRoutes.FanOutPushes | routes/blog.js:63-72 | the push log gains, in follower order, one event per follower, addressed to that follower, about the new blog |
| BlogRoutes.FanOutAddsPosts | routes/blog.js:56-62 | every notification the loop adds is a PENDING POST from the author about the new blog to one of the followers |
| BlogRoutes.FanOutReachesAll | routes/blog.js:55-62 | every follower in the list receives a new notification |
| BlogRoutes.FanOutOncePerRecipient | routes/blog.js:55-62 | with a duplicate-free follower list, no recipient receives two of the new notifications |
| BlogRoutes.Publish | routes/blog.js:41-79 | anonymous: LoginRequired, nothing created; an empty title or body: Failed, nothing created. Otherwise the blog is stored under a fresh id with the given title and body, the actor as owner and no likes. Success iff the author has a User record; without one the blog stays, nobody is notified and the handler fails |
| BlogRoutes.PublishNotifiesFollowers | routes/blog.js:54-62 | a successful publish keeps every earlier notification. Each added one is a PENDING POST from the author about the new blog to a follower with a User record. Every such follower gets one |
| BlogRoutes.PublishPushesToFollowers | routes/blog.js:55-72 | a successful publish adds one notification and one push event per populated follower. The old log is kept as a prefix, and each new event is about the new blog and addressed to a follower |
| BlogRoutes.PublishNotifiesEachFollowerOnce | routes/blog.js:55-62 | given a duplicate-free followers list, no follower receives two POST notifications for one publish |
| BlogRoutes.PublishPreservesConsistency | routes/blog.js:41-79 | publishing keeps every consistency condition |
| BlogRoutes.DeleteBlog | routes/blog.js:81-96 | anonymous, missing blog and non-owner fail (LoginRequired, NotFound, Unauthorized) with no change. The owner's delete removes the blog, exactly the comments with that blogId and exactly the notifications with that blogId, and keeps everything else |
| BlogRoutes.DeleteBlogPreservesConsistency | routes/blog.js:81-96 | the cascade keeps every consistency condition |
| BlogRoutes.FirstLike | routes/blog.js:112-117 | the LIKE notification that `deleteOne` picks is a matching one, the smallest matching id, or none when none matches |
| BlogRoutes.DropFirstLike | routes/blog.js:112-117 | `deleteOne` removes only ids that exist, and never a notification other than a LIKE from the liker to the owner about the blog |
| BlogRoutes.DropFirstLikeRemovesOne | routes/blog.js:112-117 | `deleteOne` removes exactly one matching LIKE notification when one exists, and nothing otherwise |
| BlogRoutes.RemoveLike | routes/blog.js:109-117 | the unlike branch: the actor leaves the blog's likes and the blog leaves the actor's likedBlogs. At most one matching LIKE notification is deleted, and the other records are untouched |
| BlogRoutes.AddLike | routes/blog.js:118-137 | the like branch: the actor is appended to likes and the blog to likedBlogs. One PENDING LIKE from the actor to the owner is created under a fresh id, and one push event goes to the owner |
| BlogRoutes.ToggleLike | routes/blog.js:98-145 | the checks in the handler's order, each with its reason and no change: login (LoginRequired), blog found (NotFound), owner record present (Failed, since reading the populated owner throws), not the owner (SelfTarget), actor record present (Failed). Then a liked blog is unliked and any other is liked |
| BlogRoutes.AddLikeKeepsLikesInStep | routes/blog.js:119-120 | liking adds the actor to the blog's likes and the blog to the actor's likedBlogs together, and never adds the owner |
| BlogRoutes.AddLikeKeepsLikeNotifications | routes/blog.js:119-127 | liking moves the pair's LIKE-notification count from 0 to 1 together with the likes entry |
| BlogRoutes.RemoveLikeKeepsLikesInStep | routes/blog.js:110-111 | unliking removes both entries together |
| BlogRoutes.RemoveLikeKeepsLikeNotifications | routes/blog.js:110-117 | unliking moves the pair's LIKE-notification count from 1 to 0 together with the likes entry |
| BlogRoutes.LikeStepKeepsConsistency | routes/blog.js:118-139 | the like branch keeps every consistency condition |
| BlogRoutes.UnlikeStepKeepsConsistency | routes/blog.js:109-139 | the unlike branch keeps every consistency condition |
| BlogRoutes.ToggleLikePreservesConsistency | routes/blog.js:98-145 | the toggle keeps every consistency condition |
| BlogRoutes.RemoveLikeUndoesAddLike | routes/blog.js:107-139 | unliking right after liking gives back the store, apart from the push event already emitted and the id counter |
| BlogRoutes.LikeThenUnlikeRestores | routes/blog.js:107-139 | from a not-yet-liked start in a consistent store, two toggles in a row both succeed and restore the likes, the likedBlogs and the notifications exactly; only the push event and the used id remain |
| BlogRoutes.UnlikeThenLikeRestores | routes/blog.js:107-139 | from a liked start in a consistent store, two toggles in a row both succeed; the blog's likers and the user's liked blogs come back as sets, and the pair again has exactly one LIKE notification |
| CommentRoutes.AddComment | routes/comments.js:7-23 | anonymous: LoginRequired; empty content: Failed; both with no change. On success one comment is stored under a fresh id with the content, the actor as author, the blog id as given (not looked up) and no likes. Nothing else changes and no notification is created |
| CommentRoutes.DeleteComment | routes/comments.js:26-41 | missing comment: NotFound, checked before login. An anonymous caller or a non-author: Unauthorized. Both with no change. The author's delete removes exactly that comment; notifications and other comments are untouched |
| CommentRoutes.LikeComment | routes/comments.js:44-63 | anonymous: LoginRequired; missing: NotFound; already liked: AlreadyLiked; all with no change. On success the actor is appended once, the old likes stay as the prefix, and nothing else changes |
| CommentRoutes.UnlikeComment | routes/comments.js:66-85 | anonymous, missing and not-liked fail with no change; on success the likes hold exactly the old likers other than the actor, the list shrinks, and nothing else changes |
| CommentRoutes.AddCommentPreservesConsistency | routes/comments.js:12-17 | adding a comment keeps every consistency condition and duplicate-free comment likes |
| CommentRoutes.DeleteCommentPreservesConsistency | routes/comments.js:35 | deleting a comment keeps every consistency condition |
| CommentRoutes.LikeCommentPreservesConsistency | routes/comments.js:53-57 | a comment like never lists a user twice |
| CommentRoutes.UnlikeCommentPreservesConsistency | routes/comments.js:78-79 | a comment unlike keeps every consistency condition |
| CommentRoutes.AddThenDeleteComment | routes/comments.js:12-35 | the author deleting the comment just added succeeds and gives back the store, apart from the id counter |
| CommentRoutes.OnlyAuthorDeletesComment | routes/comments.js:32-35 | a delete changes the store exactly when the caller is the comment's author |
| CommentRoutes.DeleteCommentTwice | routes/comments.js:29-31 | a deleted comment's second delete reports NotFound and changes nothing |
| CommentRoutes.LikeCommentTwice | routes/comments.js:53-55 | a second like by the same user is refused as AlreadyLiked and changes nothing |
| CommentRoutes.LikeThenUnlikeComment | routes/comments.js:56-79 | a like followed by an unlike by the same user gives back exactly the original store |
| CommentRoutes.UnlikeThenLikeComment | routes/comments.js:56-79 | an unlike followed by a like puts the user back at the end of the filtered list |
| CommentRoutes.UnlikeCommentKeepsOrder | routes/comments.js:78 | unliking removes the actor from wherever it stands and keeps the other likers in their original order |
| SubscriptionRoutes.Save | routes/subscription.js:5-19 | anonymous: LoginRequired; no `keys` object: Failed; both with no change. On success the (actor, endpoint) record holds the given keys, the key set gains at most that one pair, and every other subscription is unchanged |
| SubscriptionRoutes.SavePreservesConsistency | routes/subscription.js:9-13 | saving a subscription keeps every consistency condition |
| SubscriptionRoutes.SaveIdempotent | routes/subscription.js:9-13 | repeating a save leaves the store as after the first |
| SubscriptionRoutes.SaveOverwrites | routes/subscription.js:9-13 | a second save for the same (user, endpoint) replaces the first one's keys and adds no record |
| SubscriptionRoutes.SavesCommute | routes/subscription.js:9-13 | saves for different (user, endpoint) pairs do not interfere |
| Storage.Store.Accept | routes/notification.js:40-66 | the in-place accept reaches `NotificationRoutes.Accept`'s state and outcome and keeps the invariant |
| Storage.Store.Befriend | routes/notification.js:55-59 | the two `$addToSet`s and the status overwrite of an accept, in place |
| Storage.Store.Reject | routes/notification.js:69-90 | the in-place reject reaches `NotificationRoutes.Reject`'s state and outcome and keeps the invariant |
| Storage.Store.MarkRead | routes/notification.js:93-110 | the in-place read reaches `NotificationRoutes.MarkRead`'s state and outcome and keeps the invariant |
| Storage.Store.RequestFollow | routes/user.js:62-105 | the in-place follow request reaches `UserRoutes.RequestFollow`'s state and outcome and keeps the invariant |
| Storage.Store.Insert | routes/user.js:93-98 | `Notification.create` stores the record under the next id and advances the counter |
| Storage.Store.Unfollow | routes/user.js:108-136 | the in-place unfollow reaches `UserRoutes.Unfollow`'s state and outcome and keeps the invariant |
| Storage.Store.Unfriend | routes/user.js:126-129 | the two `$pull`s of an unfollow, in place |
| Storage.Store.Publish | routes/blog.js:41-79 | the in-place publish reaches `BlogRoutes.Publish`'s state and outcome and keeps the invariant |
| Storage.Store.NotifyFollowers | routes/blog.js:55-73 | the follower loop, one notification and one push event per iteration, ends in the fan-out state |
| Storage.Store.DeleteBlog | routes/blog.js:81-96 | the in-place delete reaches `BlogRoutes.DeleteBlog`'s state and outcome and keeps the invariant |
| Storage.Store.Cascade | routes/blog.js:88-90 | the three deletions of an owner's delete, in place |
| Storage.Store.ToggleLike | routes/blog.js:98-145 | the in-place toggle reaches `BlogRoutes.ToggleLike`'s state and outcome and keeps the invariant |
| Storage.Store.AddLike | routes/blog.js:118-137 | the like branch in place reaches `BlogRoutes.AddLike` |
| Storage.Store.RemoveLike | routes/blog.js:109-117 | the unlike branch in place reaches `BlogRoutes.RemoveLike` |
| Storage.Store.AddComment | routes/comments.js:7-23 | the in-place comment creation reaches `CommentRoutes.AddComment`'s state and outcome and keeps the invariant |
| Storage.Store.DeleteComment | routes/comments.js:26-41 | the in-place comment delete reaches `CommentRoutes.DeleteComment`'s state and outcome and keeps the invariant |
| Storage.Store.LikeComment | routes/comments.js:44-63 | the in-place comment like reaches `CommentRoutes.LikeComment`'s state and outcome and keeps the invariant |
| Storage.Store.UnlikeComment | routes/comments.js:66-85 | the in-place comment unlike reaches `CommentRoutes.UnlikeComment`'s state and outcome and keeps the invariant |
| Storage.Store.SaveSubscription | routes/subscription.js:5-19 | the in-place upsert reaches `SubscriptionRoutes.Save`'s state and outcome and keeps the invariant |

## Left out

- Signup, signin, logout, JWT handling and cookies (routes/user.js:9-59 and
  services/authentication.js): credentials and tokens come from a crypto library and a User
  model that are not part of this model. The actor is a parameter, `None` when the request
  has no `req.user`.
- Rendering, redirect URLs and message texts. Each redirect becomes an `Outcome`. The
  messages are fixed non-empty strings. The source embeds the actor's name and the blog
  title, which are not modelled.
- Timestamps (`createdAt`, `updatedAt`), sort orders, `populate` of display fields, and the
  blog's `coverImage` (upload handling).
- Push delivery (services/webPush.js): the emitter, the `web-push` library and the
  per-endpoint sending are foreign, asynchronous calls. The handlers' `emit` is modelled
  as an append to the `pushes` log: the recipient and the blog the url points to.
- Concurrency: the `Promise.all` pairs at routes/notification.js:55-59,
  routes/user.js:126-129 and routes/blog.js:139 run as one sequential step, and handlers do
  not interleave.
- The subscription router is never mounted by app.js, so no request reaches
  `POST /subscription/save`. It is modelled as written.
- SubscriptionRoutes.Save: an absent `endpoint`, or an absent `p256dh` or `auth` inside a
  present `keys` object, is not modelled. Keys are taken as given, because `findOneAndUpdate` runs no
  schema validation by default.
- Malformed ids: an id that is not a valid ObjectId makes Mongoose throw a cast error. Ids
  here are natural numbers, so that path to `Failed` is not modelled.
- Id spellings: the self checks of follow and unfollow (routes/user.js:70 and 116) compare
  the raw path text with the actor's id in lowercase hex, while `User.findById` (lines 75
  and 119) also accepts other spellings of the same ObjectId, such as uppercase hex.
  Through such a spelling an actor can send a follow request to themselves, and accepting
  it puts them in their own followers and following. The model has one spelling per id,
  so its SelfTarget refusal covers every self request, and the consistency conditions
  do not rule out self-follows.
- Comments on ids not issued yet: comment creation stores the path's blog id without
  looking it up (routes/comments.js:12-17), so a comment may name an id the generator
  has not reached. A blog later published under that id adopts the comment, and that
  blog's delete removes it. The model keeps this behaviour. `Consistency.IdsIssued`
  therefore says nothing about a comment's `blogId`.
- The database-level failures that any `await` may hit (network, write errors) are not
  modelled. Only the failures that follow from the data are: schema validation and a null
  document.
- BlogRoutes.FirstLike: `Notification.deleteOne` removes some matching document, in an
  order the database does not promise. The model picks the one with the smallest id. The
  proved properties hold whichever one is removed, because the consistency conditions
  allow at most one match.
- The views' other routes (home, search, profile, settings) only read and render, and are
  not part of this model.
- The code does not do the following, and neither does the model:
  - comment creation does not check that the blog exists and creates no COMMENT
    notification;
  - deleting a comment does not delete notifications about it;
  - there is no handler that deletes a notification;
  - mark-as-read applies to any type and status, including FOLLOW_REQUEST and answered
    notifications;
  - a publish by an actor whose User record is missing stores the blog and then fails.
