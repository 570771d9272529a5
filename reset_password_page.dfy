/** The password-reset page: `handleSubmit` refuses a missing token before anything else,
    then `validate` checks that the two passwords match and, in one combined check, that
    the password is strong. (The call to the backend is commented out in this page, so
    a submission that passes ends with the success toast.) */
module ResetPasswordPage {
  import opened Base
  import opened PasswordRules
  import RegisterPage

  datatype Form = Form(password: string, confirmPassword: string)

  datatype Error = Mismatch | Weak

  datatype Verdict = Accepted | Rejected(error: Error)

  /** `validate`: the mismatch is reported first; any one of the four strength rules
      failing gives the single "weak" error. */
  function Validate(f: Form): (v: Verdict)
    ensures v == Accepted <==> f.password == f.confirmPassword && Strong(f.password)
    ensures v == Rejected(Mismatch) <==> f.password != f.confirmPassword
    ensures v == Rejected(Weak) <==> f.password == f.confirmPassword && !Strong(f.password)
  {
    if f.password != f.confirmPassword then Rejected(Mismatch)
    else if !LongEnough(f.password) || !HasUppercase(f.password) || !HasNumber(f.password)
            || !HasSpecialChar(f.password) then Rejected(Weak)
    else Accepted
  }

  datatype Submission = MissingToken | Invalid(error: Error) | Succeeded

  /** `handleSubmit`: an absent or empty `token` query parameter is refused whatever the
      form holds; otherwise the verdict of `validate` decides. */
  function HandleSubmit(token: Option<string>, f: Form): (r: Submission)
    ensures !Present(token) ==> r == MissingToken
    ensures Present(token) ==> (r == Succeeded <==> Validate(f) == Accepted)
    ensures Present(token) && r != Succeeded ==> r == Invalid(Validate(f).error)
  {
    if !Present(token) then MissingToken
    else match Validate(f)
      case Accepted => Succeeded
      case Rejected(e) => Invalid(e)
  }

  /** Both pages enforce one password policy: on a registration form whose four fields
      are filled in, the registration check and the reset check accept the same
      passwords, and a rejected strength rule on the registration page is exactly a
      "weak" verdict here. */
  lemma SamePolicyAsRegistration(f: RegisterPage.Form)
    requires RegisterPage.Passes(f, RegisterPage.Incomplete)
    ensures RegisterPage.Validate(f) == RegisterPage.Accepted
            <==> Validate(Form(f.password, f.confirmPassword)) == Accepted
    ensures RegisterPage.Validate(f).Rejected? && RegisterPage.Validate(f).error != RegisterPage.Mismatch
            <==> Validate(Form(f.password, f.confirmPassword)) == Rejected(Weak)
  {
    if f.password == f.confirmPassword {
      RegisterPage.StrongSuffices(f);
    }
  }
}
