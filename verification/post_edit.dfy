/** The post-edit form (components/PostEditForm.tsx): loading the post by its parsed id,
    the single-file picker, the blank-field guard, and the multipart body of the update. */
module PostEdit {
  import opened Common
  import opened Text
  import NewPost

  const TitleAndContentRequired := "제목과 내용을 입력하세요."
  const PostUpdated := "✅ 게시글이 수정되었습니다."
  const UpdateFailed := "게시글 수정에 실패했습니다."

  type File = NewPost.File

  datatype EditForm = EditForm(title: string, content: string, file: Option<File>, loading: bool)

  /** The post fields the form loads. */
  datatype PostData = PostData(title: string, content: string)

  /** A multipart form value. */
  datatype FormValue = TextValue(text: string) | FileValue(file: File)
  datatype FormEntry = FormEntry(name: string, value: FormValue)

  /** `updatePost(parseInt(postId, 10), userId, formData)`; `None` is the `NaN` id. */
  datatype UpdateRequest = UpdateRequest(postId: Option<int>, userId: string, body: seq<FormEntry>)

  datatype Submission = Submission(request: Option<UpdateRequest>, effects: seq<Effect>)

  /** The id the post is fetched with. */
  function FetchId(postId: string): Option<int>
  {
    ParseInt(postId)
  }

  /** `fetchPost`: the loaded title and content replace the fields; a failed fetch leaves
      them; loading ends either way. */
  function Load(form: EditForm, fetched: Outcome<PostData>): (r: EditForm)
    ensures !r.loading && r.file == form.file
    ensures fetched.Resolved? ==> r.title == fetched.value.title && r.content == fetched.value.content
    ensures fetched.Rejected? ==> r.title == form.title && r.content == form.content
  {
    match fetched
    case Resolved(post) => form.(title := post.title, content := post.content, loading := false)
    case Rejected(_) => form.(loading := false)
  }

  /** `handleFileChange`: the first file of a non-empty selection replaces the chosen file;
      a missing or empty selection keeps it. */
  function HandleFileChange(form: EditForm, selected: Option<seq<File>>): (r: EditForm)
    ensures selected.Some? && |selected.value| > 0 ==> r == form.(file := Some(selected.value[0]))
    ensures selected.None? || |selected.value| == 0 ==> r == form
  {
    if selected.Some? && |selected.value| > 0 then form.(file := Some(selected.value[0])) else form
  }

  /** The multipart body: title, content and userId in that order, then the file when one
      was chosen. */
  function BuildFormData(title: string, content: string, userId: string, file: Option<File>)
    : (body: seq<FormEntry>)
    ensures |body| == if file.Some? then 4 else 3
    ensures body[..3] == [FormEntry("title", TextValue(title)), FormEntry("content", TextValue(content)),
                          FormEntry("userId", TextValue(userId))]
    ensures (exists i :: 0 <= i < |body| && body[i].name == "files") <==> file.Some?
    ensures file.Some? ==> body[3] == FormEntry("files", FileValue(file.value))
  {
    var fields := [FormEntry("title", TextValue(title)), FormEntry("content", TextValue(content)),
                   FormEntry("userId", TextValue(userId))];
    if file.Some? then
      var body := fields + [FormEntry("files", FileValue(file.value))];
      assert body[3].name == "files";
      body
    else fields
  }

  /** `handleUpdatePost`: a title or content that is blank after trimming stops with an
      alert; otherwise the body is assembled and the update sent. */
  function HandleUpdate(form: EditForm, postId: string, userId: string, call: Outcome<string>)
    : (s: Submission)
    ensures s.request.Some? <==> !IsBlank(form.title) && !IsBlank(form.content)
    ensures s.request.None? ==> s.effects == [Alert(TitleAndContentRequired)]
    ensures s.request.Some? ==>
      s.request.value == UpdateRequest(FetchId(postId), userId,
                                       BuildFormData(form.title, form.content, userId, form.file))
    ensures s.request.Some? && call.Resolved? ==>
      s.effects == [Alert(PostUpdated), Push("/board/" + postId)]
    ensures s.request.Some? && call.Rejected? ==> s.effects == [Alert(UpdateFailed)]
  {
    if Trim(form.title) == "" || Trim(form.content) == "" then
      Submission(None, [Alert(TitleAndContentRequired)])
    else
      var request := UpdateRequest(ParseInt(postId), userId,
                                   BuildFormData(form.title, form.content, userId, form.file));
      match call
      case Resolved(_) => Submission(Some(request), [Alert(PostUpdated), Push("/board/" + postId)])
      case Rejected(_) => Submission(Some(request), [Alert(UpdateFailed)])
  }

  /** The post is fetched and updated under the same id, and a route parameter written by
      `toString` reads back as the post's numeric id. */
  lemma UpdateTargetsLoadedPost(form: EditForm, n: int, userId: string, call: Outcome<string>)
    requires !IsBlank(form.title) && !IsBlank(form.content)
    ensures HandleUpdate(form, IntToString(n), userId, call).request.value.postId ==
      FetchId(IntToString(n)) == Some(n)
  {
    ParseIntOfIntToString(n);
  }

  /** The two forms disagree on blank input: the new-post page sends a title of spaces, the
      edit form refuses it. */
  lemma BlankTitleOnlyRejectedOnEdit(postId: string, userId: string, call: Outcome<string>)
    ensures NewPost.Submit(NewPost.NewPostForm(" ", "body", None, false), call).request.Some?
    ensures HandleUpdate(EditForm(" ", "body", None, false), postId, userId, call).request.None?
  {
    assert IsBlank(" ") by { assert IsWhitespace(" "[0]); }
    assert !IsBlank("body") by { assert !IsWhitespace("body"[0]); }
  }

  /** Choosing the same selection twice changes nothing, and the latest non-empty selection
      decides the file. */
  lemma FileChangeSettles(form: EditForm, first: Option<seq<File>>, second: Option<seq<File>>)
    ensures HandleFileChange(HandleFileChange(form, first), first) == HandleFileChange(form, first)
    ensures second.Some? && |second.value| > 0 ==>
      HandleFileChange(HandleFileChange(form, first), second) == HandleFileChange(form, second)
  {
  }

  /** No two entries of the multipart body share a name, so the service reads each field
      once. */
  lemma BodyNamesDistinct(title: string, content: string, userId: string, file: Option<File>)
    ensures var body := BuildFormData(title, content, userId, file);
      forall i, j :: 0 <= i < j < |body| ==> body[i].name != body[j].name
  {
    var body := BuildFormData(title, content, userId, file);
    assert body[0].name == "title" && body[1].name == "content" && body[2].name == "userId";
  }

  /** The edit body carries the title and content exactly as typed, as the create request of
      the new-post page does: only the guard in front differs (see
      `BlankTitleOnlyRejectedOnEdit`). */
  lemma BodyCarriesWhatCreateSends(
    form: NewPost.NewPostForm, call: Outcome<string>, userId: string, file: Option<File>)
    requires NewPost.Submit(form, call).request.Some?
    ensures var req := NewPost.Submit(form, call).request.value;
      var body := BuildFormData(form.title, form.content, userId, file);
      body[0] == FormEntry("title", TextValue(req.title)) &&
      body[1] == FormEntry("content", TextValue(req.content))
  {
    var body := BuildFormData(form.title, form.content, userId, file);
    assert body[..3][0] == body[0] && body[..3][1] == body[1];
  }
}
