/** The `useComments(postId)` hook (src/hooks/useComments.js): the `comments`
    and `loading` state cells and the four callbacks that change them. Every
    successful write is followed by a full refetch and rebuild; nothing is updated
    optimistically. */
module UseComments {
  import opened Js
  import opened CommentTree
  import opened Gateway

  /** The `comments` value after a fetch whose reply is `reply`: unchanged on
      an error, otherwise the tree rebuilt from `data || []`. */
  function AfterFetch(comments: Forest, reply: SelectReply): (r: Forest)
    ensures reply.error.Some? ==> r == comments
    ensures reply.error.None? && reply.data.None? ==> r == Forest(map[], [])
    ensures reply.error.None? && reply.data.Some? ==> r == Spec(reply.data.value)
  {
    assert Ids([]) == {};
    if reply.error.Some? then comments else Spec(RowsOf(reply))
  }

  class CommentsHook {
    const postId: Id
    var comments: Forest
    var loading: bool
    /** The calls issued to the store so far, in order. */
    var sent: seq<Request>

    constructor (postId: Id)
      ensures this.postId == postId
      ensures comments == Forest(map[], []) && !loading && sent == []
    {
      this.postId := postId;
      comments := Forest(map[], []);
      loading := false;
      sent := [];
    }

    /** `fetchComments`: select this post's comments, ordered by `created_at`. */
    method FetchComments(reply: SelectReply)
      modifies this`comments, this`loading, this`sent
      ensures sent == old(sent) + [CommentsSelect(postId)]
      ensures comments == AfterFetch(old(comments), reply)
      ensures !loading
    {
      loading := true;
      sent := sent + [CommentsSelect(postId)];
      if reply.error.None? {
        comments := BuildCommentTree(RowsOf(reply));
      }
      loading := false;
    }

    /** `addComment(userId, content, parentId)`: with no user, report and stop;
        otherwise insert, then refetch on success. `refetch` is the reply the
        refetch would get. */
    method AddComment(userId: Option<Id>, content: string, parentId: Option<Id>,
                      insert: WriteReply, refetch: SelectReply) returns (ok: bool)
      modifies this`comments, this`loading, this`sent
      ensures ok <==> Truthy(userId) && insert.Written?
      ensures !Truthy(userId) ==> sent == old(sent)
      ensures Truthy(userId) ==>
        sent == old(sent) + [CommentsInsert(postId, userId.value, parentId, content)]
                + (if ok then [CommentsSelect(postId)] else [])
      ensures ok ==> comments == AfterFetch(old(comments), refetch) && !loading
      ensures !ok ==> comments == old(comments) && loading == old(loading)
    {
      if !Truthy(userId) {
        return false;
      }
      sent := sent + [CommentsInsert(postId, userId.value, parentId, content)];
      if insert.WriteFailed? {
        return false;
      }
      FetchComments(refetch);
      return true;
    }

    /** `deleteComment(commentId)`: delete, then refetch on success. */
    method DeleteComment(commentId: Id, delete: WriteReply, refetch: SelectReply) returns (ok: bool)
      modifies this`comments, this`loading, this`sent
      ensures ok <==> delete.Written?
      ensures sent == old(sent) + [CommentsDelete(commentId)] + (if ok then [CommentsSelect(postId)] else [])
      ensures ok ==> comments == AfterFetch(old(comments), refetch) && !loading
      ensures !ok ==> comments == old(comments) && loading == old(loading)
    {
      sent := sent + [CommentsDelete(commentId)];
      if delete.WriteFailed? {
        return false;
      }
      FetchComments(refetch);
      return true;
    }

    /** `editComment(commentId, content)`: update, then refetch on success.
        There is no check on `content`. */
    method EditComment(commentId: Id, content: string, update: WriteReply, refetch: SelectReply) returns (ok: bool)
      modifies this`comments, this`loading, this`sent
      ensures ok <==> update.Written?
      ensures sent == old(sent) + [CommentsUpdate(commentId, content)] + (if ok then [CommentsSelect(postId)] else [])
      ensures ok ==> comments == AfterFetch(old(comments), refetch) && !loading
      ensures !ok ==> comments == old(comments) && loading == old(loading)
    {
      sent := sent + [CommentsUpdate(commentId, content)];
      if update.WriteFailed? {
        return false;
      }
      FetchComments(refetch);
      return true;
    }
  }
}
