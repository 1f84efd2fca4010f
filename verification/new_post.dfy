/** The new-post page (app/board/new/page.tsx): the file picker, the empty-field guard,
    and the loading flag held for the duration of the create call. */
module NewPost {
  import opened Common

  const TitleAndContentRequired := "제목과 내용을 입력해주세요."
  const PostCreated := "게시글이 작성되었습니다."
  const CreateFailed := "게시글 작성에 실패했습니다."

  /** A chosen file, identified by its name and size. */
  datatype File = File(name: string, size: nat)

  /** The page state: `files` is the last `FileList` the picker reported, if any. */
  datatype NewPostForm = NewPostForm(
    title: string, content: string, files: Option<seq<File>>, loading: bool)

  /** `createPosts(title, content, files)`. */
  datatype CreateRequest = CreateRequest(title: string, content: string, files: Option<seq<File>>)

  /** One submission: the state while the call is in flight (when one is made), the state
      after it settles, the request, and the effects. */
  datatype Submission = Submission(
    inFlight: Option<NewPostForm>, form: NewPostForm, request: Option<CreateRequest>,
    effects: seq<Effect>)

  /** `handleFileChange`: a change event without a file list keeps the previous choice; a
      list, even an empty one, replaces it. */
  function HandleFileChange(form: NewPostForm, selected: Option<seq<File>>): (r: NewPostForm)
    ensures selected.None? ==> r == form
    ensures selected.Some? ==> r.files == selected
    ensures r.title == form.title && r.content == form.content && r.loading == form.loading
  {
    if selected.Some? then form.(files := selected) else form
  }

  /** `disabled={loading}` on the submit button. */
  predicate SubmitDisabled(form: NewPostForm)
  {
    form.loading
  }

  /** `handleSubmit`: an empty title or empty content (no trimming) stops with an alert;
      otherwise the page shows loading, calls `createPosts`, and clears loading however the
      call settles. */
  function Submit(form: NewPostForm, call: Outcome<string>): (s: Submission)
    ensures s.request.Some? <==> form.title != "" && form.content != ""
    ensures s.request.Some? ==> s.request.value == CreateRequest(form.title, form.content, form.files)
    ensures s.request.None? ==> s.form == form && s.effects == [Alert(TitleAndContentRequired)]
    ensures s.inFlight.Some? <==> s.request.Some?
    ensures s.inFlight.Some? ==> s.inFlight.value == form.(loading := true)
    ensures s.request.Some? ==> s.form == form.(loading := false)
    ensures s.request.Some? && call.Resolved? ==> s.effects == [Alert(PostCreated), Push("/board")]
    ensures s.request.Some? && call.Rejected? ==> s.effects == [Alert(CreateFailed)]
  {
    if form.title == "" || form.content == "" then
      Submission(None, form, None, [Alert(TitleAndContentRequired)])
    else
      var busy := form.(loading := true);
      var request := CreateRequest(form.title, form.content, form.files);
      var effects := match call
        case Resolved(_) => [Alert(PostCreated), Push("/board")]
        case Rejected(_) => [Alert(CreateFailed)];
      Submission(Some(busy), busy.(loading := false), Some(request), effects)
  }

  /** The button is disabled exactly while the create call is in flight, and enabled again
      once it settles, on success and on failure alike. */
  lemma DisabledWhileCreating(form: NewPostForm, call: Outcome<string>)
    requires form.title != "" && form.content != ""
    ensures SubmitDisabled(Submit(form, call).inFlight.value)
    ensures !SubmitDisabled(Submit(form, call).form)
  {
  }

  /** After a failed create the form comes back as typed, so submitting it again sends the
      same request; a form the guard refused is refused again, with the same alert. */
  lemma ResubmitAfterFailure(form: NewPostForm, thrown: Thrown, call: Outcome<string>)
    ensures var first := Submit(form, Rejected(thrown));
      var again := Submit(first.form, call);
      again.request == first.request &&
      (first.request.None? ==> again.effects == first.effects)
  {
  }

  /** Reporting the same file list twice changes nothing, and the latest list reported is the
      one kept. */
  lemma FileChangeSettles(form: NewPostForm, first: Option<seq<File>>, second: Option<seq<File>>)
    ensures HandleFileChange(HandleFileChange(form, first), first) == HandleFileChange(form, first)
    ensures second.Some? ==>
      HandleFileChange(HandleFileChange(form, first), second) == HandleFileChange(form, second)
  {
  }
}
