/** The login screen: its two checks, in order, and the wording of service
    errors. Where it redirects afterwards is `Routing.LoginRedirect`. */
module Login {
  import opened Wrappers
  import Email
  import Messages

  const FillAll := "Please fill in all fields"
  const BadEmail := "Please enter a valid email address"

  function Checks(email: string, password: string): seq<Messages.Check> {
    [ Messages.Check(email != "" && password != "", FillAll),
      Messages.Check(Email.Valid(email), BadEmail) ]
  }

  /** `handleLogin`'s validation: the emptiness check comes before the
      pattern check. */
  function Validate(email: string, password: string): (r: Option<string>)
    ensures r == Messages.FirstFailing(Checks(email, password))
    ensures r.None? ==> password != "" && Email.Valid(email)
  {
    var cs := Checks(email, password);
    Messages.FirstFailingUnfold(cs);
    Messages.FirstFailingUnfold(cs[1..]);
    Messages.FirstFailingUnfold(cs[2..]);
    if email == "" || password == "" then Some(FillAll)
    else if !Email.Valid(email) then Some(BadEmail)
    else None
  }

  /** A well-formed address with an empty password is reported as a
      missing field, never as a bad address. */
  lemma EmptyPasswordReportedFirst(email: string)
    ensures Validate(email, "") == Some(FillAll)
  {
  }

  const Rules := [
    Messages.Rule("Invalid login credentials", "Invalid email or password. Please check your credentials."),
    Messages.Rule("Email not confirmed", "Please check your email and confirm your account before logging in.") ]

  const Fallback := "Login failed. Please try again."

  /** What the auth store records when `login` raises: the error's own
      message, or this text for a message-less error. */
  const StoreFallback := "An error occurred during login"

  /** What pressing "Login" does: whether the service was asked, the
      screen's validation message and the auth store's error ("" for none).
      `serviceError` is the message the service raised, if it raised ("" for
      a message-less error). Both errors are cleared before the checks run. */
  datatype Outcome = Outcome(called: bool, validation: string, storeError: string)

  function Submit(email: string, password: string, serviceError: Option<string>): (r: Outcome)
    ensures r.called <==> Validate(email, password).None?
    ensures !r.called ==> r.validation == Validate(email, password).value && r.storeError == ""
    ensures r.called && serviceError.None? ==> r.validation == "" && r.storeError == ""
    ensures r.called && serviceError.Some? ==>
              && r.validation == Messages.Explain(serviceError.value, Rules, Fallback) && r.validation != ""
              && r.storeError == (if serviceError.value != "" then serviceError.value else StoreFallback)
  {
    match Validate(email, password)
    case Some(m) => Outcome(false, m, "")
    case None =>
      match serviceError
      case None => Outcome(true, "", "")
      case Some(e) =>
        Messages.ExplainNeverBlank(e, Rules, Fallback);
        Outcome(true, Messages.Explain(e, Rules, Fallback), if e != "" then e else StoreFallback)
  }

  /** What the screen shows after "Login": the failed check's message, or,
      once the service raised, the store's raw error, which hides the
      reworded text; nothing after a successful login. */
  lemma ShownAfterSubmit(email: string, password: string, serviceError: Option<string>)
    ensures var r := Submit(email, password, serviceError);
            Messages.Shown(r.storeError, r.validation)
            == if !r.called then Validate(email, password).value
               else if serviceError.None? then ""
               else if serviceError.value != "" then serviceError.value
               else StoreFallback
  {
  }

  /** An address failing the pattern never reaches the service. */
  lemma BadAddressNeverCalls(email: string, password: string, serviceError: Option<string>)
    requires !Email.Valid(email)
    ensures !Submit(email, password, serviceError).called
  {
  }
}
