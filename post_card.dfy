/** The like counter of one post card (src/components/PostCard.jsx): the pair
    (`liked`, `likesCount`) shown for the current viewer. */
module LikeCounter {

  datatype Engagement = Engagement(liked: bool, count: int)

  /** The step taken before the store is called: flip `liked` and move the
      count by one in the same direction. */
  function Optimistic(e: Engagement): (r: Engagement)
    ensures r.liked != e.liked
    ensures r.count == e.count + 1 || r.count == e.count - 1
    ensures r.liked <==> r.count > e.count
  {
    var newLiked := !e.liked;
    Engagement(newLiked, if newLiked then e.count + 1 else e.count - 1)
  }

  /** The compensation applied when the store call fails, to the state the
      optimistic step produced: `setLiked(!newLiked)` and the count moved back. */
  function Rollback(e: Engagement): (r: Engagement)
    ensures r.liked != e.liked
    ensures r.count == e.count + 1 || r.count == e.count - 1
    ensures e.liked <==> r.count < e.count
  {
    Engagement(!e.liked, if e.liked then e.count - 1 else e.count + 1)
  }

  /** A failed call restores exactly the state before the click, in both the
      like and the unlike direction. */
  lemma RollbackUndoesOptimistic(e: Engagement)
    ensures Rollback(Optimistic(e)) == e
  {
  }

  /** The two steps are mutually inverse: the optimistic step applied to a
      rolled-back state returns the state the rollback started from. */
  lemma OptimisticUndoesRollback(e: Engagement)
    ensures Optimistic(Rollback(e)) == e
  {
  }

  /** Two successful clicks cancel out. */
  lemma TwoClicksCancel(e: Engagement)
    ensures Optimistic(Optimistic(e)) == e
  {
  }
}

/** The post card's state cells and handlers (src/components/PostCard.jsx):
    the like toggle and the inline comment thread. The card's copy of
    `buildCommentTree` (lines 64-84) is the hook's, line for line, and is
    modelled by the same `CommentTree.BuildCommentTree`. */
module PostCard {
  import opened Js
  import opened CommentTree
  import opened Gateway
  import opened LikeCounter

  /** A select that brings no `data` leaves the card with no comments, error
      or not. */
  lemma NoDataEmptiesThread(reply: SelectReply)
    requires reply.data.None?
    ensures Spec(RowsOf(reply)) == Forest(map[], [])
  {
    assert Ids([]) == {};
  }

  class PostCard {
    const postId: Id
    /** The signed-in user's id; `None` when `user` is null. */
    const viewer: Option<Id>
    var liked: bool
    var likesCount: int
    var comments: Forest
    var showComments: bool
    var newComment: string
    var loadingComments: bool
    /** The calls issued to the store so far, in order. */
    var sent: seq<Request>
    /** For each like or unlike call, the (liked, count) on screen when it was issued. */
    ghost var shownAtLikeCall: seq<Engagement>

    /** `likesCount` starts from `post.likes_count || 0`; the initial `liked`
        comes from the lookup of the viewer's like, taken as a parameter. */
    constructor (postId: Id, viewer: Option<Id>, likesCountField: Option<int>, initiallyLiked: bool)
      ensures this.postId == postId && this.viewer == viewer
      ensures liked == initiallyLiked && likesCount == likesCountField.GetOr(0)
      ensures comments == Forest(map[], []) && !showComments && newComment == "" && !loadingComments
      ensures sent == [] && shownAtLikeCall == []
    {
      this.postId := postId;
      this.viewer := viewer;
      liked := initiallyLiked;
      likesCount := likesCountField.GetOr(0);
      comments := Forest(map[], []);
      showComments := false;
      newComment := "";
      loadingComments := false;
      sent := [];
      shownAtLikeCall := [];
    }

    function State(): Engagement
      reads this
    {
      Engagement(liked, likesCount)
    }

    /** `handleLike`: with no user, report and stop. Otherwise flip and count
        optimistically, insert or delete the like, and undo exactly on error. */
    method HandleLike(reply: WriteReply)
      modifies this`liked, this`likesCount, this`sent, this`shownAtLikeCall
      ensures viewer.None? ==> State() == old(State()) && sent == old(sent) && shownAtLikeCall == old(shownAtLikeCall)
      ensures viewer.Some? ==>
        sent == old(sent) + [if old(liked) then LikesDelete(postId, viewer.value) else LikesInsert(postId, viewer.value)]
      ensures viewer.Some? ==> shownAtLikeCall == old(shownAtLikeCall) + [Optimistic(old(State()))]
      ensures viewer.Some? && reply.WriteFailed? ==> State() == old(State())
      ensures viewer.Some? && reply.Written? ==> State() == Optimistic(old(State()))
    {
      if viewer.None? {
        return;
      }
      var newLiked := !liked;
      liked := newLiked;
      likesCount := if newLiked then likesCount + 1 else likesCount - 1;
      shownAtLikeCall := shownAtLikeCall + [State()];
      if newLiked {
        sent := sent + [LikesInsert(postId, viewer.value)];
        if reply.WriteFailed? {
          liked := !newLiked;
          likesCount := likesCount - 1;
        }
      } else {
        sent := sent + [LikesDelete(postId, viewer.value)];
        if reply.WriteFailed? {
          liked := !newLiked;
          likesCount := likesCount + 1;
        }
      }
      RollbackUndoesOptimistic(old(State()));
    }

    /** The card's `fetchComments`: the error is not checked, so any reply
        replaces `comments` by the tree of `data || []`. */
    method FetchComments(reply: SelectReply)
      modifies this`comments, this`sent
      ensures sent == old(sent) + [CommentsSelect(postId)]
      ensures comments == Spec(RowsOf(reply))
    {
      sent := sent + [CommentsSelect(postId)];
      comments := BuildCommentTree(RowsOf(reply));
    }

    /** `toggleComments`: from hidden, show, fetch and clear the loading flag;
        from shown, hide and keep the fetched comments. */
    method ToggleComments(reply: SelectReply)
      modifies this`showComments, this`loadingComments, this`comments, this`sent
      ensures showComments == !old(showComments)
      ensures !old(showComments) ==>
        sent == old(sent) + [CommentsSelect(postId)] && comments == Spec(RowsOf(reply)) && !loadingComments
      ensures old(showComments) ==>
        sent == old(sent) && comments == old(comments) && loadingComments == old(loadingComments)
    {
      if !showComments {
        loadingComments := true;
        showComments := true;
        FetchComments(reply);
        loadingComments := false;
      } else {
        showComments := false;
      }
    }

    /** `handleReply(parentId, content)`: with no user, report and stop;
        otherwise insert and refetch on success. */
    method HandleReply(parentId: Option<Id>, content: string, insert: WriteReply, refetch: SelectReply)
      modifies this`comments, this`sent
      ensures viewer.None? ==> sent == old(sent) && comments == old(comments)
      ensures viewer.Some? ==>
        sent == old(sent) + [CommentsInsert(postId, viewer.value, parentId, content)]
                + (if insert.Written? then [CommentsSelect(postId)] else [])
      ensures viewer.Some? && insert.Written? ==> comments == Spec(RowsOf(refetch))
      ensures viewer.None? || insert.WriteFailed? ==> comments == old(comments)
    {
      if viewer.None? {
        return;
      }
      sent := sent + [CommentsInsert(postId, viewer.value, parentId, content)];
      if insert.Written? {
        FetchComments(refetch);
      }
    }

    /** `handleAddComment`: blank input is ignored; otherwise post it as a
        root comment and clear the input, whatever the insert's outcome. */
    method HandleAddComment(insert: WriteReply, refetch: SelectReply)
      modifies this`comments, this`sent, this`newComment
      ensures IsBlank(old(newComment)) ==>
        sent == old(sent) && comments == old(comments) && newComment == old(newComment)
      ensures !IsBlank(old(newComment)) ==> newComment == ""
      ensures !IsBlank(old(newComment)) && viewer.Some? ==>
        sent == old(sent) + [CommentsInsert(postId, viewer.value, None, old(newComment))]
                + (if insert.Written? then [CommentsSelect(postId)] else [])
      ensures !IsBlank(old(newComment)) && viewer.None? ==> sent == old(sent) && comments == old(comments)
      ensures !IsBlank(old(newComment)) && viewer.Some? && insert.Written? ==> comments == Spec(RowsOf(refetch))
      ensures insert.WriteFailed? ==> comments == old(comments)
    {
      if IsBlank(newComment) {
        return;
      }
      HandleReply(None, newComment, insert, refetch);
      newComment := "";
    }

    /** `handleDeleteComment(commentId)`: delete, then refetch on success. */
    method HandleDeleteComment(commentId: Id, delete: WriteReply, refetch: SelectReply)
      modifies this`comments, this`sent
      ensures sent == old(sent) + [CommentsDelete(commentId)] + (if delete.Written? then [CommentsSelect(postId)] else [])
      ensures comments == if delete.Written? then Spec(RowsOf(refetch)) else old(comments)
    {
      sent := sent + [CommentsDelete(commentId)];
      if delete.Written? {
        FetchComments(refetch);
      }
    }

    /** `handleEditComment(commentId, content)`: update, then refetch on success. */
    method HandleEditComment(commentId: Id, content: string, update: WriteReply, refetch: SelectReply)
      modifies this`comments, this`sent
      ensures sent == old(sent) + [CommentsUpdate(commentId, content)] + (if update.Written? then [CommentsSelect(postId)] else [])
      ensures comments == if update.Written? then Spec(RowsOf(refetch)) else old(comments)
    {
      sent := sent + [CommentsUpdate(commentId, content)];
      if update.Written? {
        FetchComments(refetch);
      }
    }
  }
}
