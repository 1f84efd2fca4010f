/** The comment section of the post page (components/CommentSection.tsx): add, update and
    delete against the comment service, a single edit slot, and controls only for the
    comment's owner. */
module CommentSection {
  import opened Common
  import opened Text
  import opened CommentList

  /** `editing` is the id of the comment being edited (`null` when none); `editContent` is
      the edit buffer. */
  datatype State = State(
    comments: seq<Comment>, newComment: string, editing: Option<int>, editContent: string)

  /** One handler run: the state after the call settles and the call made, if any. */
  datatype Step = Step(state: State, request: Option<CommentRequest>)

  /** Loading on mount: the fetched list replaces the comments; a failure only logs. */
  function Load(st: State, fetched: Outcome<seq<Comment>>): (r: State)
    ensures fetched.Resolved? ==> r.comments == fetched.value
    ensures fetched.Rejected? ==> r == st
    ensures r.newComment == st.newComment && r.editing == st.editing && r.editContent == st.editContent
  {
    match fetched
    case Resolved(list) => st.(comments := list)
    case Rejected(_) => st
  }

  /** `handleAddComment`: nothing happens when the text is blank after trimming or there is
      no signed-in user; otherwise the comment is created, appended and the input cleared. */
  function AddComment(st: State, userId: Option<string>, postId: string, call: Outcome<Comment>)
    : (r: Step)
    ensures r.request.Some? <==> !IsBlank(st.newComment) && Truthy(userId)
    ensures r.request.Some? ==> r.request.value == CreateCall(userId.value, postId, st.newComment)
    ensures r.request.None? || call.Rejected? ==> r.state == st
    ensures r.request.Some? && call.Resolved? ==>
      && |r.state.comments| == |st.comments| + 1
      && r.state.comments[..|st.comments|] == st.comments
      && r.state.comments[|st.comments|] == call.value
      && r.state.newComment == ""
      && r.state.editing == st.editing && r.state.editContent == st.editContent
  {
    if Trim(st.newComment) == [] || !Truthy(userId) then Step(st, None)
    else
      var request := CreateCall(userId.value, postId, st.newComment);
      match call
      case Resolved(created) =>
        Step(st.(comments := Append(st.comments, created), newComment := ""), Some(request))
      case Rejected(_) => Step(st, Some(request))
  }

  /** `handleUpdateComment`: a blank edit text does nothing; otherwise the comment is updated
      (with the user id as given, even when absent), every comment carrying the id is
      replaced by the response, and edit mode ends. */
  function UpdateComment(st: State, commentId: int, userId: Option<string>, call: Outcome<Comment>)
    : (r: Step)
    ensures r.request.Some? <==> !IsBlank(st.editContent)
    ensures r.request.Some? ==> r.request.value == UpdateCall(commentId, userId, st.editContent)
    ensures r.request.None? || call.Rejected? ==> r.state == st
    ensures r.request.Some? && call.Resolved? ==>
      && |r.state.comments| == |st.comments|
      && (forall i :: 0 <= i < |st.comments| ==>
            r.state.comments[i] == if st.comments[i].id == commentId then call.value else st.comments[i])
      && r.state.editing.None?
      && r.state.newComment == st.newComment
  {
    if Trim(st.editContent) == [] then Step(st, None)
    else
      var request := UpdateCall(commentId, userId, st.editContent);
      match call
      case Resolved(updated) =>
        Step(st.(comments := ReplaceById(st.comments, commentId, updated), editing := None), Some(request))
      case Rejected(_) => Step(st, Some(request))
  }

  /** `handleDeleteComment`: always calls the service; on success exactly the comments
      carrying the id are dropped, the rest keep their order. */
  function DeleteComment(st: State, commentId: int, userId: Option<string>, call: Outcome<()>)
    : (r: Step)
    ensures r.request == Some(DeleteCall(commentId, userId))
    ensures call.Rejected? ==> r.state == st
    ensures call.Resolved? ==>
      && (forall c :: c in r.state.comments <==> c in st.comments && c.id != commentId)
      && IsSubsequence(r.state.comments, st.comments)
      && |r.state.comments| == |st.comments| - CountId(st.comments, commentId)
      && r.state.newComment == st.newComment && r.state.editing == st.editing
  {
    var request := DeleteCall(commentId, userId);
    match call
    case Resolved(_) => Step(st.(comments := RemoveById(st.comments, commentId)), Some(request))
    case Rejected(_) => Step(st, Some(request))
  }

  /** The edit and delete buttons: shown when the signed-in id is strictly equal to the
      comment's owner, an absent id never being equal to a string. */
  predicate CanModify(userId: Option<string>, c: Comment)
  {
    userId == Some(c.userId)
  }

  /** The comment input is rendered only for a truthy user id. */
  predicate ComposerShown(userId: Option<string>)
  {
    Truthy(userId)
  }

  /** The edit button: the comment's id fills the single edit slot and its text the buffer. */
  function StartEdit(st: State, c: Comment): (r: State)
    ensures r.editing == Some(c.id) && r.editContent == c.content
    ensures r.comments == st.comments && r.newComment == st.newComment
  {
    st.(editing := Some(c.id), editContent := c.content)
  }

  /** The cancel button: the edit slot is emptied; the buffer keeps its text. */
  function CancelEdit(st: State): (r: State)
    ensures r.editing.None?
    ensures r.comments == st.comments && r.newComment == st.newComment && r.editContent == st.editContent
  {
    st.(editing := None)
  }

  /** A comment is rendered as an editor exactly when its id fills the edit slot. */
  predicate InEditMode(st: State, c: Comment)
  {
    st.editing == Some(c.id)
  }

  /** There is one edit slot: after the edit button of `c`, the comments shown as editors
      are exactly those sharing `c`'s id, and after cancel or a successful save none is. */
  lemma SingleEditSlot(st: State, c: Comment, userId: Option<string>, call: Outcome<Comment>)
    requires !IsBlank(c.content) && call.Resolved?
    ensures forall d :: InEditMode(StartEdit(st, c), d) <==> d.id == c.id
    ensures forall d :: !InEditMode(CancelEdit(StartEdit(st, c)), d)
    ensures forall d :: !InEditMode(UpdateComment(StartEdit(st, c), c.id, userId, call).state, d)
  {
  }

  /** Saving an edit right after starting it sends the comment's own text under its id. */
  lemma EditSendsCommentText(st: State, c: Comment, userId: Option<string>, call: Outcome<Comment>)
    requires !IsBlank(c.content)
    ensures UpdateComment(StartEdit(st, c), c.id, userId, call).request ==
      Some(UpdateCall(c.id, userId, c.content))
  {
  }

  /** A successful add followed by a successful delete of the created comment restores the
      list, as long as the service gave the new comment an unused id. */
  lemma AddThenDeleteRestores(
    st: State, userId: Option<string>, postId: string, created: Comment, deleted: Outcome<()>)
    requires !IsBlank(st.newComment) && Truthy(userId)
    requires CountId(st.comments, created.id) == 0 && deleted.Resolved?
    ensures
      var added := AddComment(st, userId, postId, Resolved(created)).state;
      DeleteComment(added, created.id, userId, deleted).state.comments == st.comments
  {
    AppendThenRemove(st.comments, created);
  }
}
