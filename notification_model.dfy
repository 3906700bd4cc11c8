/** The Notification record of models/notification.js: the `type` and `status`
    enums, the defaults, and the validation that `Notification.create` runs. */
module NotificationModel {
  import opened Types

  datatype Kind = FollowRequest | Like | CommentKind | Post
  datatype Status = Pending | Accepted | Rejected | Read

  /** A stored notification. `blogId`/`commentId` are `None` for null. */
  datatype Notification = Notification(
    recipient: UserId,
    sender: UserId,
    kind: Kind,
    blogId: Option<BlogId>,
    commentId: Option<CommentId>,
    status: Status,
    message: string)

  /** The fields handed to `Notification.create`, as the caller supplies them:
      `type` and `status` as strings, anything may be missing (`None`, and
      for `message` the empty string, which `required` also rejects). */
  datatype Draft = Draft(
    recipient: Option<UserId>,
    sender: Option<UserId>,
    kind: Option<string>,
    blogId: Option<BlogId>,
    commentId: Option<CommentId>,
    status: Option<string>,
    message: string)

  function KindName(k: Kind): string
  {
    match k
    case FollowRequest => "FOLLOW_REQUEST"
    case Like => "LIKE"
    case CommentKind => "COMMENT"
    case Post => "POST"
  }

  /** The `type` enum check: exactly the four names are accepted. */
  function ParseKind(s: string): (r: Option<Kind>)
    ensures r.Some? <==> s in {"FOLLOW_REQUEST", "LIKE", "COMMENT", "POST"}
    ensures r.Some? ==> KindName(r.value) == s
  {
    if s == "FOLLOW_REQUEST" then Some(FollowRequest)
    else if s == "LIKE" then Some(Like)
    else if s == "COMMENT" then Some(CommentKind)
    else if s == "POST" then Some(Post)
    else None
  }

  function StatusName(st: Status): string
  {
    match st
    case Pending => "PENDING"
    case Accepted => "ACCEPTED"
    case Rejected => "REJECTED"
    case Read => "READ"
  }

  /** The `status` enum check: exactly the four names are accepted. */
  function ParseStatus(s: string): (r: Option<Status>)
    ensures r.Some? <==> s in {"PENDING", "ACCEPTED", "REJECTED", "READ"}
    ensures r.Some? ==> StatusName(r.value) == s
  {
    if s == "PENDING" then Some(Pending)
    else if s == "ACCEPTED" then Some(Accepted)
    else if s == "REJECTED" then Some(Rejected)
    else if s == "READ" then Some(Read)
    else None
  }

  /** Every kind's name is accepted by the enum check and parses back to it. */
  lemma KindNameRoundTrip(k: Kind)
    ensures ParseKind(KindName(k)) == Some(k)
  {
    match k
    case FollowRequest =>
    case Like =>
      assert KindName(k) != "FOLLOW_REQUEST";
    case CommentKind =>
      assert KindName(k) != "FOLLOW_REQUEST";
    case Post =>
      assert KindName(k) != "FOLLOW_REQUEST";
  }

  /** Every status's name is accepted by the enum check and parses back to it. */
  lemma StatusNameRoundTrip(st: Status)
    ensures ParseStatus(StatusName(st)) == Some(st)
  {
    match st
    case Pending =>
    case Accepted =>
      assert StatusName(st) != "PENDING";
    case Rejected =>
      assert StatusName(st) != "PENDING";
    case Read =>
      assert StatusName(st) != "PENDING";
  }

  /** Schema validation plus defaults: `None` when a required field is
      missing or an enum value is not one of its names; otherwise the stored
      record, with status PENDING by default and null references by default. */
  function Create(d: Draft): (r: Option<Notification>)
    ensures r.Some? <==>
      && d.recipient.Some? && d.sender.Some? && d.kind.Some? && d.message != ""
      && ParseKind(d.kind.value).Some?
      && (d.status.Some? ==> ParseStatus(d.status.value).Some?)
    ensures r.Some? ==>
      && r.value.recipient == d.recipient.value
      && r.value.sender == d.sender.value
      && KindName(r.value.kind) == d.kind.value
      && r.value.blogId == d.blogId
      && r.value.commentId == d.commentId
      && r.value.message == d.message
    ensures r.Some? && d.status.None? ==> r.value.status == Pending
    ensures r.Some? && d.status.Some? ==> StatusName(r.value.status) == d.status.value
  {
    if d.recipient.None? || d.sender.None? || d.kind.None? || d.message == "" then None
    else
      match ParseKind(d.kind.value)
      case None => None
      case Some(k) =>
        if d.status.None? then
          Some(Notification(d.recipient.value, d.sender.value, k, d.blogId, d.commentId, Pending, d.message))
        else
          match ParseStatus(d.status.value)
          case None => None
          case Some(st) =>
            Some(Notification(d.recipient.value, d.sender.value, k, d.blogId, d.commentId, st, d.message))
  }

  /** What a handler's `Notification.create({recipient, sender, type, blogId,
      message})` stores: the record gets the PENDING default and a null
      `commentId`. */
  function Issue(recipient: UserId, sender: UserId, kind: Kind, blogId: Option<BlogId>, message: string): (n: Notification)
    requires message != ""
    ensures n.recipient == recipient && n.sender == sender && n.kind == kind && n.blogId == blogId
    ensures n.status == Pending && n.commentId == None && n.message == message
  {
    IssueIsCreate(recipient, sender, kind, blogId, message);
    Create(Draft(Some(recipient), Some(sender), Some(KindName(kind)), blogId, None, None, message)).value
  }

  /** The handlers' drafts are complete, so schema validation accepts them. */
  lemma IssueIsCreate(recipient: UserId, sender: UserId, kind: Kind, blogId: Option<BlogId>, message: string)
    requires message != ""
    ensures Create(Draft(Some(recipient), Some(sender), Some(KindName(kind)), blogId, None, None, message)).Some?
  {
    KindNameRoundTrip(kind);
  }
}
