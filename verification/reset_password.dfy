/** The "forgot password" screen: send a reset link, then offer to try
    again. */
module ResetPassword {
  import opened Wrappers
  import Email
  import Messages

  /** The typed address, the screen's validation message, the auth
      store's error ("" for none) and whether the link was sent. */
  datatype Screen = Screen(email: string, validation: string, storeError: string, emailSent: bool)

  const NoEmail := "Please enter your email address"
  const BadEmail := "Please enter a valid email address"
  const Fallback := "Failed to send reset email. Please try again."

  /** What the auth store records when `forgotPassword` raises a
      message-less error. */
  const StoreFallback := "Failed to send password reset email"

  function Checks(email: string): seq<Messages.Check> {
    [ Messages.Check(email != "", NoEmail), Messages.Check(Email.Valid(email), BadEmail) ]
  }

  /** `handleSendResetEmail`. `serviceError` is the message `forgotPassword`
      raised, if it raised ("" for a message-less error); the result says
      whether it was called. Both errors are cleared first. */
  function Send(s: Screen, serviceError: Option<string>): (r: (Screen, bool))
    ensures r.1 <==> Messages.FirstFailing(Checks(s.email)).None?
    ensures r.1 ==> Email.Valid(s.email)
    ensures !r.1 ==> r.0 == s.(validation := Messages.FirstFailing(Checks(s.email)).value, storeError := "")
    ensures r.1 && serviceError.None? ==> r.0 == s.(validation := "", storeError := "", emailSent := true)
    ensures r.1 && serviceError.Some? ==>
              r.0 == s.(validation := if serviceError.value != "" then serviceError.value else Fallback,
                        storeError := if serviceError.value != "" then serviceError.value else StoreFallback)
  {
    var cs := Checks(s.email);
    Messages.FirstFailingUnfold(cs);
    Messages.FirstFailingUnfold(cs[1..]);
    Messages.FirstFailingUnfold(cs[2..]);
    var cleared := s.(validation := "", storeError := "");
    if s.email == "" then (cleared.(validation := NoEmail), false)
    else if !Email.Valid(s.email) then (cleared.(validation := BadEmail), false)
    else match serviceError
      case None => (cleared.(emailSent := true), true)
      case Some(e) =>
        (cleared.(validation := if e != "" then e else Fallback,
                  storeError := if e != "" then e else StoreFallback), true)
  }

  /** What the screen shows after "Send": the failed check's message, the
      raw service message when there is one, and the store's own text for a
      message-less failure, which hides the screen's fallback. */
  lemma ShownAfterSend(s: Screen, serviceError: Option<string>)
    ensures var r := Send(s, serviceError);
            Messages.Shown(r.0.storeError, r.0.validation)
            == if !r.1 then Messages.FirstFailing(Checks(s.email)).value
               else if serviceError.None? then ""
               else if serviceError.value != "" then serviceError.value
               else StoreFallback
  {
  }

  /** "Try Again" shows the form again. */
  function TryAgain(s: Screen): (r: Screen)
    ensures !r.emailSent && r.email == s.email && r.validation == s.validation && r.storeError == s.storeError
  {
    s.(emailSent := false)
  }

  /** After a sent link, "Try Again" returns to the form with the address
      kept and no error shown. */
  lemma SendThenTryAgain(s: Screen)
    requires Email.Valid(s.email)
    ensures TryAgain(Send(s, None).0) == s.(validation := "", storeError := "", emailSent := false)
    ensures Messages.Shown(TryAgain(Send(s, None).0).storeError, TryAgain(Send(s, None).0).validation) == ""
  {
  }
}
