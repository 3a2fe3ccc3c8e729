/** The submit handler of client/src/auth/ForgatPassword.tsx. The page never
    calls the server: a valid address starts a 1.5-second timer that marks
    the request as sent. */
module ForgotPasswordForm {
  import opened Wrappers
  import opened EmailPattern

  const InvalidEmail := "Please enter a valid email address."
  const SettleDelayMs: nat := 1500

  datatype Form = Form(email: string, loading: bool, sent: bool, error: Option<string>)

  function Initial(): (f: Form)
    ensures f.email == "" && !f.loading && !f.sent && f.error.None?
  {
    Form("", false, false, None)
  }

  /** The state after a submit, and whether the timer was started. */
  datatype Submitted = Submitted(form: Form, timerStarted: bool)

  /** `handleSubmit`: the timer starts exactly for the addresses the regular
      expression matches; any other address (the empty one included) sets the
      error and leaves the loading flag as it was. */
  function Submit(f: Form): (r: Submitted)
    ensures r.form.email == f.email && r.form.sent == f.sent
    ensures r.timerStarted <==> EmailRegex(f.email)
    ensures r.timerStarted ==> r.form.loading && r.form.error.None?
    ensures !r.timerStarted ==> r.form.loading == f.loading && r.form.error == Some(InvalidEmail)
  {
    EmailRegexIffAccepts(f.email);
    if f.email == "" || !AcceptsEmail(f.email) then
      Submitted(f.(error := Some(InvalidEmail)), false)
    else
      Submitted(f.(error := None, loading := true), true)
  }

  /** The timer callback: loading stops and the confirmation shows. */
  function Settle(f: Form): (r: Form)
    ensures r.email == f.email && r.error == f.error
    ensures !r.loading && r.sent
  {
    f.(loading := false, sent := true)
  }

  /** The empty-address test in front of the regular expression never changes
      the outcome: the expression needs at least one character before `@`. */
  lemma EmptyTestRedundant()
    ensures !EmailRegex("")
  {
    EmailRegexIffAccepts("");
    assert Text.Split("", '@') == [""];
  }

  /** A valid submit followed by the timer shows the confirmation with no
      error. */
  lemma SubmitThenSettle(f: Form)
    requires EmailRegex(f.email)
    ensures var g := Settle(Submit(f).form); g.sent && !g.loading && g.error.None?
  {
  }
}
