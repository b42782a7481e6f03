/** The sign-up screen: its checks, in order, and the wording of service
    errors. */
module Signup {
  import opened Wrappers
  import Text
  import Email
  import Messages
  import Domain
  import Routing

  datatype Form = Form(name: string, email: string, password: string, confirm: string)

  const MinPassword := 6

  const FillAll := "Please fill in all fields"
  const Mismatch := "Passwords do not match"
  const TooShort := "Password must be at least 6 characters"
  const BadEmail := "Please enter a valid email address"

  predicate Filled(f: Form) {
    f.name != "" && f.email != "" && f.password != "" && f.confirm != ""
  }

  /** The checks in the order the screen makes them. */
  function Checks(f: Form): seq<Messages.Check> {
    [ Messages.Check(Filled(f), FillAll),
      Messages.Check(f.password == f.confirm, Mismatch),
      Messages.Check(Text.Utf16Length(f.password) >= MinPassword, TooShort),
      Messages.Check(Email.Valid(f.email), BadEmail) ]
  }

  /** `handleSignup`'s validation: the first failing check's message. */
  function Validate(f: Form): (r: Option<string>)
    ensures r == Messages.FirstFailing(Checks(f))
    ensures r.None? ==> Filled(f) && f.password == f.confirm
                        && Text.Utf16Length(f.password) >= MinPassword && Email.Valid(f.email)
  {
    var cs := Checks(f);
    Messages.FirstFailingUnfold(cs);
    Messages.FirstFailingUnfold(cs[1..]);
    Messages.FirstFailingUnfold(cs[2..]);
    Messages.FirstFailingUnfold(cs[3..]);
    Messages.FirstFailingUnfold(cs[4..]);
    if !Filled(f) then Some(FillAll)
    else if f.password != f.confirm then Some(Mismatch)
    else if Text.Utf16Length(f.password) < MinPassword then Some(TooShort)
    else if !Email.Valid(f.email) then Some(BadEmail)
    else None
  }

  /** A six-character password (outside the astral planes) is long
      enough; five characters are not. */
  lemma SixIsEnough(f: Form)
    requires Filled(f) && f.password == f.confirm && Email.Valid(f.email)
    requires forall i :: 0 <= i < |f.password| ==> f.password[i] as int <= 0xFFFF
    ensures |f.password| == 6 ==> Validate(f).None?
    ensures |f.password| == 5 ==> Validate(f) == Some(TooShort)
  {
  }

  const Rules := [
    Messages.Rule("User already registered", "An account with this email already exists. Please try logging in instead."),
    Messages.Rule("Password should be at least 6 characters", "Password must be at least 6 characters long."),
    Messages.Rule("Invalid email", "Please enter a valid email address.") ]

  const Fallback := "Signup failed. Please try again."

  /** What the auth store records when `signup` raises: the error's own
      message, or this text for a message-less error. */
  const StoreFallback := "An error occurred during signup"

  /** What pressing "Sign up" does: whether the service was asked, the
      screen's validation message and the auth store's error ("" for none).
      `serviceError` is the message the service raised, if it raised ("" for
      a message-less error). Both errors are cleared before the checks run. */
  datatype Outcome = Outcome(called: bool, validation: string, storeError: string)

  function Submit(f: Form, serviceError: Option<string>): (r: Outcome)
    ensures r.called <==> Validate(f).None?
    ensures !r.called ==> r.validation == Validate(f).value && r.storeError == ""
    ensures r.called && serviceError.None? ==> r.validation == "" && r.storeError == ""
    ensures r.called && serviceError.Some? ==>
              && r.validation == Messages.Explain(serviceError.value, Rules, Fallback) && r.validation != ""
              && r.storeError == (if serviceError.value != "" then serviceError.value else StoreFallback)
  {
    match Validate(f)
    case Some(m) => Outcome(false, m, "")
    case None =>
      match serviceError
      case None => Outcome(true, "", "")
      case Some(e) =>
        Messages.ExplainNeverBlank(e, Rules, Fallback);
        Outcome(true, Messages.Explain(e, Rules, Fallback), if e != "" then e else StoreFallback)
  }

  /** What the screen shows after "Sign up": the failed check's message,
      or, once the service raised, the store's raw error, which hides the
      reworded text. */
  lemma ShownAfterSubmit(f: Form, serviceError: Option<string>)
    ensures var r := Submit(f, serviceError);
            Messages.Shown(r.storeError, r.validation)
            == if !r.called then Validate(f).value
               else if serviceError.None? then ""
               else if serviceError.value != "" then serviceError.value
               else StoreFallback
  {
  }

  /** A duplicate-account error is reworded even when it also mentions an
      invalid email, because that rule comes first. */
  lemma AlreadyRegisteredWins(message: string)
    requires Text.Contains(message, "User already registered")
    ensures Messages.Explain(message, Rules, Fallback) == Rules[0].replacement
  {
  }

  /** After a sign-up the new user always goes to pick a location. */
  function SignupRedirect(authenticated: bool, user: Option<Domain.User>): (r: Option<Routing.Destination>)
    ensures r.Some? <==> authenticated && user.Some?
    ensures r.Some? ==> r.value == Routing.LocationPicker
  {
    if authenticated && user.Some? then Some(Routing.LocationPicker) else None
  }
}
