/** The password-change form (components/PasswordChangeForm.tsx): a length check and a
    confirmation check before the call, and a server error that names a wrong current password
    clearing only that field. */
module PasswordChange {
  import opened Common
  import opened Text
  import opened Validation

  const NewPasswordTooShort := "새로운 비밀번호는 최소 8자 이상이어야 합니다."
  const ConfirmationMismatch := "새로운 비밀번호와 비밀번호 확인이 일치하지 않습니다."
  const ChangeSucceeded := "비밀번호 변경이 성공적으로 완료되었습니다."
  const ChangedNotice := "비밀번호가 성공적으로 변경되었습니다."
  const WrongOldPassword := "현재 비밀번호가 틀렸습니다. 다시 확인해주세요."
  const ChangeFailed := "비밀번호 변경에 실패했습니다. 다시 시도해 주세요."
  const UnknownFailure := "알 수 없는 오류가 발생했습니다. 다시 시도해 주세요."

  /** The phrase of the user service's error text that the form recognises. */
  const OldPasswordIncorrect := "Old password is incorrect"

  /** How long the form waits after a successful change before leaving. */
  const RedirectDelayMs := 2000

  datatype PasswordForm = PasswordForm(
    oldPassword: string, newPassword: string, confirmPassword: string, success: string)

  /** `changePassword(userId, oldPassword, newPassword)`. */
  datatype ChangeRequest = ChangeRequest(userId: string, oldPassword: string, newPassword: string)

  datatype Submission = Submission(
    form: PasswordForm, request: Option<ChangeRequest>, effects: seq<Effect>)

  /** The two checks before the call, in order. */
  function PasswordChecks(form: PasswordForm): seq<Check>
  {
    [Check(|form.newPassword| >= 8, NewPasswordTooShort),
     Check(form.newPassword == form.confirmPassword, ConfirmationMismatch)]
  }

  /** The alert for a rejected call. */
  function FailureAlert(thrown: Thrown): (message: string)
    ensures message == WrongOldPassword <==>
      thrown.ErrorThrown? && Contains(thrown.message, OldPasswordIncorrect)
    ensures message == ChangeFailed <==>
      thrown.ErrorThrown? && !Contains(thrown.message, OldPasswordIncorrect)
    ensures message == UnknownFailure <==> thrown.OtherThrown?
  {
    match thrown
    case ErrorThrown(m) => if Contains(m, OldPasswordIncorrect) then WrongOldPassword else ChangeFailed
    case OtherThrown => UnknownFailure
  }

  /** `handleSubmit`: the success message is cleared, the checks run, and `call` is how the
      request settles when one is sent. */
  function Submit(form: PasswordForm, userId: string, call: Outcome<string>): (s: Submission)
    ensures s.request.Some? <==> |form.newPassword| >= 8 && form.newPassword == form.confirmPassword
    ensures s.request.Some? ==>
      s.request.value == ChangeRequest(userId, form.oldPassword, form.newPassword)
    ensures |form.newPassword| < 8 ==> s.effects == [Alert(NewPasswordTooShort)]
    ensures |form.newPassword| >= 8 && form.newPassword != form.confirmPassword ==>
      s.effects == [Alert(ConfirmationMismatch)]
    ensures s.form.newPassword == form.newPassword
    ensures s.form.confirmPassword == form.confirmPassword
    ensures s.form.oldPassword == "" || s.form.oldPassword == form.oldPassword
    ensures s.form.oldPassword != form.oldPassword ==>
      s.request.Some? && call.Rejected? && s.effects == [Alert(WrongOldPassword)]
    ensures s.form.success != "" <==> s.request.Some? && call.Resolved?
    ensures s.request.Some? && call.Resolved? ==>
      && s.form.success == ChangeSucceeded
      && s.effects == [Delayed(RedirectDelayMs, [Alert(ChangedNotice), Push("/")])]
    ensures s.request.Some? && call.Rejected? ==> s.effects == [Alert(FailureAlert(call.thrown))]
  {
    var cleared := form.(success := "");
    match FirstFailure(PasswordChecks(form))
    case Some(message) =>
      assert message == NewPasswordTooShort || message == ConfirmationMismatch;
      Submission(cleared, None, [Alert(message)])
    case None =>
      assert PasswordChecks(form)[0].passes && PasswordChecks(form)[1].passes;
      var request := ChangeRequest(userId, form.oldPassword, form.newPassword);
      match call
      case Resolved(_) =>
        Submission(cleared.(success := ChangeSucceeded), Some(request),
          [Delayed(RedirectDelayMs, [Alert(ChangedNotice), Push("/")])])
      case Rejected(thrown) =>
        var alert := FailureAlert(thrown);
        var after := if alert == WrongOldPassword then cleared.(oldPassword := "") else cleared;
        Submission(after, Some(request), [Alert(alert)])
  }

  /** A rejection whose message names a wrong current password clears exactly the current
      password; every other rejection leaves all three fields as typed. */
  lemma RejectionResetsOnlyOldPassword(form: PasswordForm, userId: string, thrown: Thrown)
    requires |form.newPassword| >= 8 && form.newPassword == form.confirmPassword
    ensures var s := Submit(form, userId, Rejected(thrown));
      && s.form.newPassword == form.newPassword
      && s.form.confirmPassword == form.confirmPassword
      && (s.form.oldPassword == "" <==>
            form.oldPassword == "" ||
            (thrown.ErrorThrown? && Contains(thrown.message, OldPasswordIncorrect)))
  {
  }

  /** The message the user-service wrapper throws: its fixed prefix and the response text. */
  const ChangeErrorPrefix := "비밀번호 변경 실패: "

  function ChangePasswordError(responseText: string): Thrown
  {
    ErrorThrown(ChangeErrorPrefix + responseText)
  }

  /** Through the wrapper, the current-password field is cleared exactly when the service's
      response text contains the phrase: the fixed prefix cannot supply any part of it. */
  lemma {:induction false} WrongOldPasswordFromResponse(form: PasswordForm, userId: string, responseText: string)
    requires |form.newPassword| >= 8 && form.newPassword == form.confirmPassword
    requires form.oldPassword != ""
    ensures Submit(form, userId, Rejected(ChangePasswordError(responseText))).form.oldPassword == ""
      <==> Contains(responseText, OldPasswordIncorrect)
  {
    assert OldPasswordIncorrect[0] == 'O';
    assert 'O' !in ChangeErrorPrefix;
    ContainsAfterPrefix(ChangeErrorPrefix, responseText, OldPasswordIncorrect);
  }
}
