/** Identifiers, optional values and the outcome every handler reports. */
module Types {

  /** Document ids (Mongo ObjectIds); every collection draws from one generator. */
  type Id = nat
  type UserId = Id
  type BlogId = Id
  type CommentId = Id
  type NotificationId = Id

  /** A value that may be absent: an anonymous actor, a null reference, a missing field. */
  datatype Option<+T> = None | Some(value: T)

  /** Why a handler refused, one code per distinct error redirect of the routes. */
  datatype Reason =
    | LoginRequired          // no `req.user`
    | NotFound               // user, blog or comment lookup returned null
    | NotFoundOrUnauthorized // notification missing or addressed to someone else
    | Unauthorized           // not the owner of the blog or comment
    | InvalidState           // not a PENDING FOLLOW_REQUEST
    | SelfTarget             // follow/unfollow oneself, like one's own blog
    | AlreadyRequested       // a PENDING follow request already exists
    | AlreadyLiked           // comment already liked by the actor
    | NotLiked               // comment not liked by the actor
    | Failed                 // an exception caught by the handler's catch block

  /** The redirect of a handler, reduced to success or a reason. */
  datatype Outcome = Ok | Err(reason: Reason)
}
