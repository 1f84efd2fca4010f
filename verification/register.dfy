/** The sign-up page (app/register/page.tsx): three length checks in a fixed order, then
    the account-creation call, whose rejection is shown as the page's error message. */
module Register {
  import opened Common
  import opened Validation

  const EmailTooShort := "이메일은 최소 2글자 이상이어야 합니다."
  const NameTooShort := "이름은 최소 2글자 이상이어야 합니다."
  const PasswordTooShort := "비밀번호는 최소 8글자 이상이어야 합니다."
  const UnknownError := "알 수 없는 오류가 발생했습니다."
  const SignUpSucceeded := "회원가입 성공!"

  datatype RegisterForm = RegisterForm(email: string, name: string, pwd: string, errorMsg: string)

  /** The body of `createUser(email, name, pwd)`. */
  datatype CreateUserRequest = CreateUserRequest(email: string, name: string, pwd: string)

  /** What one submission does: the form afterwards, the request sent (if any), and the
      effects requested of the browser. */
  datatype Submission = Submission(
    form: RegisterForm, request: Option<CreateUserRequest>, effects: seq<Effect>)

  /** The three checks of `handleSubmit`, written as the source orders them. */
  function ValidateRegistration(email: string, name: string, pwd: string): (failure: Option<string>)
    ensures |email| < 2 ==> failure == Some(EmailTooShort)
    ensures |email| >= 2 && |name| < 2 ==> failure == Some(NameTooShort)
    ensures |email| >= 2 && |name| >= 2 && |pwd| < 8 ==> failure == Some(PasswordTooShort)
    ensures failure.None? <==> |email| >= 2 && |name| >= 2 && |pwd| >= 8
  {
    if |email| < 2 then Some(EmailTooShort)
    else if |name| < 2 then Some(NameTooShort)
    else if |pwd| < 8 then Some(PasswordTooShort)
    else None
  }

  function RegistrationChecks(email: string, name: string, pwd: string): seq<Check>
  {
    [Check(|email| >= 2, EmailTooShort), Check(|name| >= 2, NameTooShort),
     Check(|pwd| >= 8, PasswordTooShort)]
  }

  /** The hand-written `if` chain is the ordered first-failure rule over the three checks. */
  lemma ValidationIsFirstFailure(email: string, name: string, pwd: string)
    ensures ValidateRegistration(email, name, pwd) ==
      FirstFailure(RegistrationChecks(email, name, pwd))
  {
    var checks := RegistrationChecks(email, name, pwd);
    if |email| < 2 {
      FirstFailureIs(checks, 0);
    } else if |name| < 2 {
      FirstFailureIs(checks, 1);
    } else if |pwd| < 8 {
      FirstFailureIs(checks, 2);
    }
  }

  /** `handleSubmit`: the error message is cleared, the checks run in order, and only when all
      pass is `createUser` called; `call` is how that call settles. */
  function Submit(form: RegisterForm, call: Outcome<string>): (s: Submission)
    ensures s.form.email == form.email && s.form.name == form.name && s.form.pwd == form.pwd
    ensures s.request.Some? <==> ValidateRegistration(form.email, form.name, form.pwd).None?
    ensures s.request.Some? ==> s.request.value == CreateUserRequest(form.email, form.name, form.pwd)
    ensures s.request.None? ==>
      Some(s.form.errorMsg) == ValidateRegistration(form.email, form.name, form.pwd) &&
      s.effects == []
    ensures s.request.Some? && call.Resolved? ==>
      s.form.errorMsg == "" && s.effects == [Alert(SignUpSucceeded), Reload("/login")]
    ensures s.request.Some? && call.Rejected? ==>
      s.effects == [] &&
      s.form.errorMsg == (if call.thrown.ErrorThrown? then call.thrown.message else UnknownError)
  {
    var cleared := form.(errorMsg := "");
    match ValidateRegistration(form.email, form.name, form.pwd)
    case Some(message) => Submission(cleared.(errorMsg := message), None, [])
    case None =>
      var request := CreateUserRequest(form.email, form.name, form.pwd);
      match call
      case Resolved(_) => Submission(cleared, Some(request), [Alert(SignUpSucceeded), Reload("/login")])
      case Rejected(ErrorThrown(message)) => Submission(cleared.(errorMsg := message), Some(request), [])
      case Rejected(OtherThrown) => Submission(cleared.(errorMsg := UnknownError), Some(request), [])
  }
}
