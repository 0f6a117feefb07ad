/** The calls the comment and like handlers make to the hosted record store,
    and the replies they read back. The store itself is not modelled: each
    handler receives the reply it gets as a parameter, so every reply the
    store could give is covered. */
module Gateway {
  import opened Js
  import opened CommentTree

  /** The `error` object of a reply. */
  datatype GatewayError = GatewayError(code: string, message: string)

  /** `{ data, error }` of the comments select. Either part may be absent. */
  datatype SelectReply = SelectReply(data: Option<seq<CommentRecord>>, error: Option<GatewayError>)

  /** `{ error }` of an insert, update or delete. */
  datatype WriteReply = Written | WriteFailed(error: GatewayError)

  /** One call issued to the store. */
  datatype Request =
    | CommentsSelect(postId: Id)
    | CommentsInsert(postId: Id, userId: Id, parentId: Option<Id>, content: string)
    | CommentsDelete(commentId: Id)
    | CommentsUpdate(commentId: Id, content: string)
    | LikesInsert(postId: Id, userId: Id)
    | LikesDelete(postId: Id, userId: Id)

  /** The rows of a select, `data || []`. */
  function RowsOf(reply: SelectReply): (rows: seq<CommentRecord>)
    ensures reply.data.None? ==> rows == []
    ensures reply.data.Some? ==> rows == reply.data.value
  {
    reply.data.GetOr([])
  }
}
