/** The two-step in-app password change: confirm the account's address,
    then check the current password and set a new one. The account lookup,
    the sign-in and the update are given as inputs. */
module SimpleReset {
  import opened Wrappers
  import Text
  import Email
  import Messages

  datatype Step = EmailStep | PasswordStep

  datatype Screen = Screen(step: Step, email: string, current: string, newPassword: string, confirm: string, error: string)

  const MinPassword := 6

  const NoEmail := "Please enter your email address"
  const BadEmail := "Please enter a valid email address"
  const NoAccount := "No account found with this email address"
  const LookupFailed := "Failed to verify email. Please try again."
  const FillAll := "Please fill in all fields"
  const Mismatch := "New passwords do not match"
  const TooShort := "New password must be at least 6 characters long"
  const Unchanged := "New password must be different from current password"
  const WrongCurrent := "Current password is incorrect"
  const UpdateFallback := "Failed to update password. Please try again."

  /** The address the account table and the sign-in are asked with. */
  function AccountKey(email: string): (r: string)
    ensures |r| == |Text.Trim(email)|
    ensures forall i :: 0 <= i < |r| ==> !('A' <= r[i] <= 'Z')
    ensures r == [] <==> Text.AllSpace(email)
  {
    Text.TrimEmptyIffAllSpace(email);
    Text.Lower(Text.Trim(email))
  }

  /** An address that passes the pattern has no white space to trim, so
      only its case is folded. */
  lemma KeyOfValidAddress(email: string)
    requires Email.Valid(email)
    ensures AccountKey(email) == Text.Lower(email)
  {
    assert !Text.IsSpace(email[0]) && !Text.IsSpace(email[|email| - 1]);
    assert Text.LeadingSpaces(email) == 0;
    assert email[0..] == email;
    assert Text.TrailingSpaces(email) == 0;
  }

  /** What the account lookup meets: the stored addresses (an address may
      be stored more than once), whether the query answered with an error,
      and whether the call threw instead of answering. */
  datatype Accounts = Accounts(addresses: multiset<string>, queryError: bool, threw: bool)

  /** `.single()` yields a row exactly when the query answers without an
      error and exactly one stored address equals the key; zero rows or
      several come back as an error. */
  predicate Found(accounts: Accounts, key: string) {
    !accounts.threw && !accounts.queryError && accounts.addresses[key] == 1
  }

  function EmailChecks(email: string): seq<Messages.Check> {
    [ Messages.Check(email != "", NoEmail), Messages.Check(Email.Valid(email), BadEmail) ]
  }

  /** `handleVerifyEmail`: the password step opens only for a well-formed
      address whose folded form is exactly one stored account. A lookup
      that answers with an error or with no single row reports that no
      account was found; only a lookup that throws reports a failure. */
  function VerifyEmail(s: Screen, accounts: Accounts): (r: Screen)
    ensures r.email == s.email && r.current == s.current && r.newPassword == s.newPassword && r.confirm == s.confirm
    ensures Messages.FirstFailing(EmailChecks(s.email)).Some? ==>
              r == s.(error := Messages.FirstFailing(EmailChecks(s.email)).value)
    ensures r.step == PasswordStep && s.step == EmailStep ==>
              Email.Valid(s.email) && Found(accounts, AccountKey(s.email))
    ensures Email.Valid(s.email) && accounts.threw ==> r == s.(error := LookupFailed)
    ensures Email.Valid(s.email) && !accounts.threw && !Found(accounts, AccountKey(s.email)) ==>
              r == s.(error := NoAccount)
    ensures Email.Valid(s.email) && Found(accounts, AccountKey(s.email)) ==>
              r == s.(step := PasswordStep, error := "")
  {
    var cs := EmailChecks(s.email);
    Messages.FirstFailingUnfold(cs);
    Messages.FirstFailingUnfold(cs[1..]);
    Messages.FirstFailingUnfold(cs[2..]);
    if s.email == "" then s.(error := NoEmail)
    else if !Email.Valid(s.email) then s.(error := BadEmail)
    else if accounts.threw then s.(error := LookupFailed)
    else if !Found(accounts, AccountKey(s.email)) then s.(error := NoAccount)
    else s.(step := PasswordStep, error := "")
  }

  /** Two addresses that differ only in letter case find the same
      account. */
  lemma LookupIgnoresCase(s: Screen, other: string, accounts: Accounts)
    requires Email.Valid(s.email) && Email.Valid(other) && Text.Lower(s.email) == Text.Lower(other)
    ensures VerifyEmail(s, accounts).step == VerifyEmail(s.(email := other), accounts).step
  {
    KeyOfValidAddress(s.email);
    KeyOfValidAddress(other);
  }

  function PasswordChecks(s: Screen): seq<Messages.Check> {
    [ Messages.Check(s.current != "" && s.newPassword != "" && s.confirm != "", FillAll),
      Messages.Check(s.newPassword == s.confirm, Mismatch),
      Messages.Check(Text.Utf16Length(s.newPassword) >= MinPassword, TooShort),
      Messages.Check(s.current != s.newPassword, Unchanged) ]
  }

  /** What the password step did: the screen, whether the current
      password was tried and whether the update was sent, and whether the
      password was changed (after which the screen signs out and sends the
      user to log in). */
  datatype Attempt = Attempt(screen: Screen, signInTried: bool, updateSent: bool, changed: bool)

  /** `handleResetPassword`. `signInOk` is whether the current password
      signs in; `updateError` the message the update raised, if it raised
      ("" for a message-less error). */
  function ChangePassword(s: Screen, signInOk: bool, updateError: Option<string>): (r: Attempt)
    ensures r.signInTried <==> Messages.FirstFailing(PasswordChecks(s)).None?
    ensures !r.signInTried ==> r.screen == s.(error := Messages.FirstFailing(PasswordChecks(s)).value)
    ensures r.updateSent <==> r.signInTried && signInOk
    ensures r.signInTried && !signInOk ==> r.screen == s.(error := WrongCurrent)
    ensures r.updateSent ==> s.newPassword == s.confirm && s.newPassword != s.current
                              && Text.Utf16Length(s.newPassword) >= MinPassword
    ensures r.changed <==> r.updateSent && updateError.None?
    ensures r.updateSent && updateError.Some? ==>
              r.screen.error == (if updateError.value != "" then updateError.value else UpdateFallback)
    ensures r.signInTried ==> r.screen == s.(error := r.screen.error)
    ensures r.changed ==> r.screen.error == ""
  {
    var cs := PasswordChecks(s);
    Messages.FirstFailingUnfold(cs);
    Messages.FirstFailingUnfold(cs[1..]);
    Messages.FirstFailingUnfold(cs[2..]);
    Messages.FirstFailingUnfold(cs[3..]);
    Messages.FirstFailingUnfold(cs[4..]);
    if s.current == "" || s.newPassword == "" || s.confirm == "" then Attempt(s.(error := FillAll), false, false, false)
    else if s.newPassword != s.confirm then Attempt(s.(error := Mismatch), false, false, false)
    else if Text.Utf16Length(s.newPassword) < MinPassword then Attempt(s.(error := TooShort), false, false, false)
    else if s.current == s.newPassword then Attempt(s.(error := Unchanged), false, false, false)
    else if !signInOk then Attempt(s.(error := WrongCurrent), true, false, false)
    else match updateError
      case None => Attempt(s.(error := ""), true, true, true)
      case Some(e) => Attempt(s.(error := if e != "" then e else UpdateFallback), true, true, false)
  }

  /** `handleBack`: from the password step, back to the address with the
      three password fields and the error cleared; from the address step,
      leave the screen (`true`). */
  function Back(s: Screen): (r: (Screen, bool))
    ensures s.step == PasswordStep ==> !r.1 && r.0 == Screen(EmailStep, s.email, "", "", "", "")
    ensures s.step == EmailStep ==> r.1 && r.0 == s
  {
    if s.step == PasswordStep then (s.(step := EmailStep, current := "", newPassword := "", confirm := "", error := ""), false)
    else (s, true)
  }

  /** Going forward and back again leaves the address as typed and
      nothing else. */
  lemma ForwardThenBack(s: Screen, accounts: Accounts)
    requires s.step == EmailStep
    requires Email.Valid(s.email) && Found(accounts, AccountKey(s.email))
    ensures Back(VerifyEmail(s, accounts)) == (Screen(EmailStep, s.email, "", "", "", ""), false)
  {
  }
}
