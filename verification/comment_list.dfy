/** The three list operations both comment sections apply to their comment state after a
    successful call: append the created comment, replace the updated one by id, and drop
    the deleted one by id. */
module CommentList {
  import opened Common

  datatype Comment = Comment(
    id: int, userId: string, content: string, createdAt: string, updatedAt: Option<string>)

  /** The calls of the comment service the sections make; a user id of `None` is the
      `undefined` that a non-null assertion lets through. */
  datatype CommentRequest =
    | CreateCall(userId: string, postId: string, content: string)
    | UpdateCall(commentId: int, updateUserId: Option<string>, content: string)
    | DeleteCall(commentId: int, deleteUserId: Option<string>)

  /** How many comments carry `id`. */
  function CountId(comments: seq<Comment>, id: int): nat
  {
    if comments == [] then 0
    else (if comments[0].id == id then 1 else 0) + CountId(comments[1..], id)
  }

  /** `[...comments, created]`. */
  function Append(comments: seq<Comment>, created: Comment): (r: seq<Comment>)
    ensures |r| == |comments| + 1 && r[|comments|] == created
    ensures r[..|comments|] == comments
  {
    comments + [created]
  }

  /** `comments.map(c => c.id === id ? updated : c)`. */
  function ReplaceById(comments: seq<Comment>, id: int, updated: Comment): (r: seq<Comment>)
    ensures |r| == |comments|
    ensures forall i :: 0 <= i < |r| && comments[i].id != id ==> r[i] == comments[i]
    ensures forall i :: 0 <= i < |r| && comments[i].id == id ==> r[i] == updated
  {
    seq(|comments|, i requires 0 <= i < |comments| => if comments[i].id == id then updated else comments[i])
  }

  /** `comments.filter(c => c.id !== id)`. */
  function RemoveById(comments: seq<Comment>, id: int): (r: seq<Comment>)
    ensures forall c :: c in r <==> c in comments && c.id != id
    ensures IsSubsequence(r, comments)
    ensures |r| == |comments| - CountId(comments, id)
  {
    if comments == [] then []
    else if comments[0].id == id then
      var r := RemoveById(comments[1..], id);
      SubsequenceOfTail(r, comments);
      r
    else
      var r := [comments[0]] + RemoveById(comments[1..], id);
      assert r[1..] == RemoveById(comments[1..], id);
      assert forall c :: c in comments <==> c == comments[0] || c in comments[1..];
      r
  }

  /** Replacing by an id no comment carries changes nothing; replacing twice with the same
      comment is the same as replacing once. */
  lemma ReplaceByIdFacts(comments: seq<Comment>, id: int, updated: Comment)
    ensures CountId(comments, id) == 0 ==> ReplaceById(comments, id, updated) == comments
    ensures updated.id == id ==>
      ReplaceById(ReplaceById(comments, id, updated), id, updated) == ReplaceById(comments, id, updated)
  {
    if CountId(comments, id) == 0 {
      NoIdNoMatch(comments, id);
    }
  }

  lemma {:induction false} NoIdNoMatch(comments: seq<Comment>, id: int)
    requires CountId(comments, id) == 0
    ensures forall i :: 0 <= i < |comments| ==> comments[i].id != id
  {
    if comments != [] {
      NoIdNoMatch(comments[1..], id);
      assert forall i :: 1 <= i < |comments| ==> comments[i] == comments[1..][i - 1];
    }
  }

  /** Removing by an id no comment carries keeps the list as it is. */
  lemma {:induction false} RemoveAbsentId(comments: seq<Comment>, id: int)
    requires CountId(comments, id) == 0
    ensures RemoveById(comments, id) == comments
  {
    if comments != [] {
      RemoveAbsentId(comments[1..], id);
      assert [comments[0]] + comments[1..] == comments;
    }
  }

  lemma {:induction false} RemoveByIdAppend(comments: seq<Comment>, last: Comment, id: int)
    ensures RemoveById(comments + [last], id) ==
      RemoveById(comments, id) + (if last.id == id then [] else [last])
  {
    if comments == [] {
      assert [] + [last] == [last];
    } else {
      assert (comments + [last])[1..] == comments[1..] + [last];
      RemoveByIdAppend(comments[1..], last, id);
    }
  }

  /** Deleting a freshly created comment by its id gives back the list from before it was
      appended: append and filter-by-id undo each other when the id is new. */
  lemma AppendThenRemove(comments: seq<Comment>, created: Comment)
    requires CountId(comments, created.id) == 0
    ensures RemoveById(Append(comments, created), created.id) == comments
  {
    RemoveByIdAppend(comments, created, created.id);
    RemoveAbsentId(comments, created.id);
  }
}
