/** The two shapes every form screen's feedback takes: an ordered list of
    checks of which the first failing one is reported, and an ordered list
    of substring rules that turn a service error into a friendlier text. */
module Messages {
  import opened Wrappers
  import Text

  /** One check of a form and the message shown when it fails. */
  datatype Check = Check(passes: bool, message: string)

  /** The message of the first failing check, if any. */
  function FirstFailing(checks: seq<Check>): (r: Option<string>)
    ensures r.None? <==> forall i :: 0 <= i < |checks| ==> checks[i].passes
    ensures r.Some? ==> exists i :: 0 <= i < |checks| && !checks[i].passes && r.value == checks[i].message
                          && forall j :: 0 <= j < i ==> checks[j].passes
  {
    if |checks| == 0 then None
    else if !checks[0].passes then
      Some(checks[0].message)
    else
      var r := FirstFailing(checks[1..]);
      assert forall i :: 1 <= i < |checks| ==> checks[i] == checks[1..][i - 1];
      if r.Some? then
        var i :| 0 <= i < |checks[1..]| && !checks[1..][i].passes && r.value == checks[1..][i].message
                 && forall j :: 0 <= j < i ==> checks[1..][j].passes;
        assert !checks[i + 1].passes && r.value == checks[i + 1].message;
        r
      else r
  }

  /** `FirstFailing` of a list, unfolded check by check. */
  lemma FirstFailingUnfold(checks: seq<Check>)
    ensures FirstFailing(checks) == if |checks| == 0 then None
                                    else if !checks[0].passes then Some(checks[0].message)
                                    else FirstFailing(checks[1..])
  {
  }

  /** A rule: a service message containing `pattern` is shown as
      `replacement`. */
  datatype Rule = Rule(pattern: string, replacement: string)

  /** The replacement of the first rule whose pattern occurs in `message`;
      without one, the message itself, or `fallback` when it is empty. */
  function Explain(message: string, rules: seq<Rule>, fallback: string): (r: string)
    ensures (forall i :: 0 <= i < |rules| ==> !Text.Contains(message, rules[i].pattern)) ==>
              r == (if message != "" then message else fallback)
    ensures forall i :: (0 <= i < |rules| && Text.Contains(message, rules[i].pattern)
              && (forall j :: 0 <= j < i ==> !Text.Contains(message, rules[j].pattern))) ==> r == rules[i].replacement
  {
    if |rules| == 0 then (if message != "" then message else fallback)
    else if Text.Contains(message, rules[0].pattern) then rules[0].replacement
    else
      assert forall i :: 1 <= i < |rules| ==> rules[i] == rules[1..][i - 1];
      Explain(message, rules[1..], fallback)
  }

  /** With non-empty replacements and fallback, the mapped text is never
      empty. */
  lemma {:induction false} ExplainNeverBlank(message: string, rules: seq<Rule>, fallback: string)
    requires fallback != "" && forall i :: 0 <= i < |rules| ==> rules[i].replacement != ""
    ensures Explain(message, rules, fallback) != ""
  {
    if |rules| > 0 && !Text.Contains(message, rules[0].pattern) {
      ExplainNeverBlank(message, rules[1..], fallback);
    }
  }

  /** `{error || validationError}`: the error box of a form screen shows the
      auth store's error when it has one and the screen's own validation
      message otherwise; the box appears exactly when either is set. */
  function Shown(storeError: string, validation: string): (r: string)
    ensures r != "" <==> storeError != "" || validation != ""
    ensures storeError != "" ==> r == storeError
    ensures storeError == "" ==> r == validation
  {
    if storeError != "" then storeError else validation
  }
}
