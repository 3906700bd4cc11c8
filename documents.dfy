/** The collections the handlers read and write (models/blog.js,
    models/comments.js, models/subscription.js and the User fields they
    touch), as one database value. */
module Documents {
  import opened Types
  import opened NotificationModel

  /** The User fields of the social graph: who follows this user, whom this
      user follows, and the blogs this user liked. */
  datatype User = User(followers: seq<UserId>, following: seq<UserId>, likedBlogs: seq<BlogId>)

  datatype Blog = Blog(title: string, body: string, createdBy: UserId, likes: seq<UserId>)

  datatype Comment = Comment(content: string, createdBy: UserId, blogId: BlogId, likes: seq<UserId>)

  /** The delivery credentials of one push subscription. */
  datatype PushKeys = PushKeys(p256dh: string, auth: string)

  /** A `notification:send` event: push to `userId` a payload whose url is
      `/blog/<blogId>`. */
  datatype PushEvent = PushEvent(userId: UserId, blogId: BlogId)

  /** The whole store. Subscriptions are keyed by (user, endpoint), the key of
      the upsert; `pushes` logs the emitted push events in order; `nextId` is
      the id generator: the next document created gets it. */
  datatype Db = Db(
    users: map<UserId, User>,
    blogs: map<BlogId, Blog>,
    comments: map<CommentId, Comment>,
    notifications: map<NotificationId, Notification>,
    subscriptions: map<(UserId, string), PushKeys>,
    pushes: seq<PushEvent>,
    nextId: Id)

  /** The store after a handler, and what the handler reported. */
  datatype Step = Step(db: Db, outcome: Outcome)
}
