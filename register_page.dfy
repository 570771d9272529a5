/** The registration page: `validate` runs a fixed chain of checks over the form and
    reports the first one that fails (as a toast); `handleSubmit` sends the form to the
    backend only when `validate` passes, with the role forced to "docente". */
module RegisterPage {
  import opened Base
  import opened PasswordRules

  datatype Form = Form(nombre: string, email: string, password: string, confirmPassword: string)

  /** One error per check, in the order in which `validate` runs them. */
  datatype Error = Incomplete | Mismatch | TooShort | NoUppercase | NoNumber | NoSpecialChar

  datatype Verdict = Accepted | Rejected(error: Error)

  /** The position of a check in the chain. */
  function Rank(e: Error): nat
  {
    match e
    case Incomplete => 0
    case Mismatch => 1
    case TooShort => 2
    case NoUppercase => 3
    case NoNumber => 4
    case NoSpecialChar => 5
  }

  /** The condition that the check reporting `e` demands of the form. */
  predicate Passes(f: Form, e: Error)
  {
    match e
    case Incomplete => f.nombre != "" && f.email != "" && f.password != "" && f.confirmPassword != ""
    case Mismatch => f.password == f.confirmPassword
    case TooShort => LongEnough(f.password)
    case NoUppercase => HasUppercase(f.password)
    case NoNumber => HasNumber(f.password)
    case NoSpecialChar => HasSpecialChar(f.password)
  }

  /** `validate`: accepted exactly when every check passes; otherwise the one error
      reported is that of the first failing check. */
  function Validate(f: Form): (v: Verdict)
    ensures v == Accepted <==> forall e :: Passes(f, e)
    ensures v.Rejected? ==> !Passes(f, v.error) && forall e :: Rank(e) < Rank(v.error) ==> Passes(f, e)
  {
    if !Passes(f, Incomplete) then Rejected(Incomplete)
    else if !Passes(f, Mismatch) then Rejected(Mismatch)
    else if !Passes(f, TooShort) then Rejected(TooShort)
    else if !Passes(f, NoUppercase) then Rejected(NoUppercase)
    else if !Passes(f, NoNumber) then Rejected(NoNumber)
    else if !Passes(f, NoSpecialChar) then Rejected(NoSpecialChar)
    else Accepted
  }

  /** The body posted to the registration endpoint: the form spread out, plus the role. */
  datatype Payload = Payload(nombre: string, email: string, password: string, confirmPassword: string, rol: string)

  /** `handleSubmit`: nothing is sent unless `validate` passes; what is sent carries the
      form unchanged and the role "docente", whatever the form holds. */
  function HandleSubmit(f: Form): (sent: Option<Payload>)
    ensures sent.Some? <==> Validate(f) == Accepted
    ensures sent.Some? ==> sent.value.rol == "docente"
    ensures sent.Some? ==> Form(sent.value.nombre, sent.value.email, sent.value.password, sent.value.confirmPassword) == f
  {
    if Validate(f) != Accepted then None
    else Some(Payload(f.nombre, f.email, f.password, f.confirmPassword, "docente"))
  }

  /** A form that passes validation holds a password meeting all four rules, and the
      two password fields agree. */
  lemma AcceptedMeansStrong(f: Form)
    requires Validate(f) == Accepted
    ensures Strong(f.password) && f.password == f.confirmPassword
  {
    assert Passes(f, Mismatch) && Passes(f, TooShort) && Passes(f, NoUppercase);
    assert Passes(f, NoNumber) && Passes(f, NoSpecialChar);
  }

  /** A complete form with matching passwords is accepted exactly when the password is strong. */
  lemma StrongSuffices(f: Form)
    requires Passes(f, Incomplete) && Passes(f, Mismatch)
    ensures Validate(f) == Accepted <==> Strong(f.password)
  {
    if Validate(f) == Accepted {
      AcceptedMeansStrong(f);
    }
  }
}
