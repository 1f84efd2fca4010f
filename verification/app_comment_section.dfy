/** The stand-alone comment section (app/comments/CommentSection.tsx): create and delete
    only, a sign-in alert in place of a silent return, and a delete button gated on a
    truthy, matching user id. */
module AppCommentSection {
  import opened Common
  import opened Text
  import opened CommentList
  import CommentSection

  const LoginRequired := "로그인이 필요합니다."

  datatype State = State(comments: seq<Comment>, newComment: string)

  /** One handler run: the state after the call settles, the call made, and the effects. */
  datatype Step = Step(state: State, request: Option<CommentRequest>, effects: seq<Effect>)

  /** `fetchComments`: the fetched list replaces the comments; a failure only logs. */
  function Load(st: State, fetched: Outcome<seq<Comment>>): (r: State)
    ensures fetched.Resolved? ==> r == State(fetched.value, st.newComment)
    ensures fetched.Rejected? ==> r == st
  {
    match fetched
    case Resolved(list) => st.(comments := list)
    case Rejected(_) => st
  }

  /** `handleCommentSubmit`: blank text does nothing; without a signed-in user the page
      alerts and sends nothing; otherwise the comment is created, appended and the input
      cleared. */
  function SubmitComment(st: State, userId: Option<string>, postId: string, call: Outcome<Comment>)
    : (r: Step)
    ensures IsBlank(st.newComment) ==> r == Step(st, None, [])
    ensures !IsBlank(st.newComment) && !Truthy(userId) ==> r == Step(st, None, [Alert(LoginRequired)])
    ensures r.request.Some? <==> !IsBlank(st.newComment) && Truthy(userId)
    ensures r.request.Some? ==>
      r.request.value == CreateCall(userId.value, postId, st.newComment) && r.effects == []
    ensures r.request.Some? && call.Rejected? ==> r.state == st
    ensures r.request.Some? && call.Resolved? ==>
      && |r.state.comments| == |st.comments| + 1
      && r.state.comments[..|st.comments|] == st.comments
      && r.state.comments[|st.comments|] == call.value
      && r.state.newComment == ""
  {
    if Trim(st.newComment) == [] then Step(st, None, [])
    else if !Truthy(userId) then Step(st, None, [Alert(LoginRequired)])
    else
      var request := CreateCall(userId.value, postId, st.newComment);
      match call
      case Resolved(created) =>
        Step(State(Append(st.comments, created), ""), Some(request), [])
      case Rejected(_) => Step(st, Some(request), [])
  }

  /** `handleCommentDelete`: nothing without a signed-in user; otherwise the comment is
      deleted and, on success, exactly the comments carrying the id are dropped. */
  function DeleteComment(st: State, commentId: int, userId: Option<string>, call: Outcome<()>)
    : (r: Step)
    ensures r.effects == []
    ensures r.request.Some? <==> Truthy(userId)
    ensures r.request.Some? ==> r.request.value == DeleteCall(commentId, userId)
    ensures r.request.None? || call.Rejected? ==> r.state == st
    ensures r.request.Some? && call.Resolved? ==>
      && (forall c :: c in r.state.comments <==> c in st.comments && c.id != commentId)
      && IsSubsequence(r.state.comments, st.comments)
      && |r.state.comments| == |st.comments| - CountId(st.comments, commentId)
      && r.state.newComment == st.newComment
  {
    if !Truthy(userId) then Step(st, None, [])
    else
      var request := DeleteCall(commentId, userId);
      match call
      case Resolved(_) => Step(st.(comments := RemoveById(st.comments, commentId)), Some(request), [])
      case Rejected(_) => Step(st, Some(request), [])
  }

  /** The delete button: a truthy user id equal to the comment's owner. */
  predicate ShowDeleteButton(userId: Option<string>, c: Comment)
  {
    Truthy(userId) && userId.value == c.userId
  }

  /** The "no comments yet" notice. */
  predicate ShowEmptyNotice(st: State)
  {
    |st.comments| == 0
  }

  /** The input is shown to a truthy user id; everyone else sees the sign-in notice. */
  predicate ComposerShown(userId: Option<string>)
  {
    Truthy(userId)
  }

  /** The delete button is offered only where pressing it sends a request, and it sends the
      deletion of that very comment. */
  lemma DeleteButtonSendsRequest(st: State, userId: Option<string>, c: Comment, call: Outcome<()>)
    requires ShowDeleteButton(userId, c)
    ensures DeleteComment(st, c.id, userId, call).request == Some(DeleteCall(c.id, userId))
  {
  }

  /** The two sections gate their owner controls alike for every truthy user id, and
      differently for the empty id: the post page's section offers edit and delete on a
      comment whose owner is the empty string, this one does not. */
  lemma OwnerGatesCompared(userId: Option<string>, c: Comment)
    ensures Truthy(userId) ==> (ShowDeleteButton(userId, c) <==> CommentSection.CanModify(userId, c))
    ensures userId == Some("") && c.userId == "" ==>
      CommentSection.CanModify(userId, c) && !ShowDeleteButton(userId, c)
    ensures ShowDeleteButton(userId, c) ==> CommentSection.CanModify(userId, c)
  {
  }

  /** Both sections append the created comment and clear the input in the same way. */
  lemma SubmitAgreesWithAdd(
    st: CommentSection.State, userId: Option<string>, postId: string, call: Outcome<Comment>)
    requires Truthy(userId)
    ensures
      var mine := SubmitComment(State(st.comments, st.newComment), userId, postId, call);
      var theirs := CommentSection.AddComment(st, userId, postId, call);
      mine.request == theirs.request &&
      mine.state.comments == theirs.state.comments && mine.state.newComment == theirs.state.newComment
  {
  }

  /** The empty-list notice disappears after a successful first comment. */
  lemma FirstCommentHidesNotice(st: State, userId: Option<string>, postId: string, created: Comment)
    requires ShowEmptyNotice(st) && !IsBlank(st.newComment) && Truthy(userId)
    ensures !ShowEmptyNotice(SubmitComment(st, userId, postId, Resolved(created)).state)
  {
  }
}
