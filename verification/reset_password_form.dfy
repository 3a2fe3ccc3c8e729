/** The submit handler of client/src/auth/ResetPassword.tsx. Like the
    forgot-password page it never calls the server: a passing submit starts a
    1.5-second timer that clears both fields and shows the success message. */
module ResetPasswordForm {
  import opened Wrappers
  import opened Text

  const TooShort := "Password must be at least 6 characters."
  const Mismatch := "Passwords do not match."
  const MinLength: nat := 6

  /** The per-field messages; a `None` field is absent from the object. */
  datatype Errors = Errors(password: Option<string>, confirmPassword: Option<string>)

  datatype Form = Form(password: string, confirmPassword: string, loading: bool,
                       errors: Errors, success: bool)

  /** The rules a new password must meet on this page. */
  predicate Acceptable(password: string, confirmPassword: string) {
    Utf16Length(password) >= MinLength && confirmPassword == password
  }

  /** The number of keys of the error object. */
  function KeyCount(e: Errors): nat {
    (if e.password.Some? then 1 else 0) + (if e.confirmPassword.Some? then 1 else 0)
  }

  /** The error object `handleSubmit` builds: one message per broken rule. */
  function Check(password: string, confirmPassword: string): (e: Errors)
    ensures e.password.Some? <==> Utf16Length(password) < MinLength
    ensures e.confirmPassword.Some? <==> confirmPassword != password
    ensures e.password.Some? ==> e.password.value == TooShort
    ensures e.confirmPassword.Some? ==> e.confirmPassword.value == Mismatch
    ensures KeyCount(e) == 0 <==> Acceptable(password, confirmPassword)
  {
    Errors(if Utf16Length(password) < 6 then Some(TooShort) else None,
           if confirmPassword != password then Some(Mismatch) else None)
  }

  datatype Submitted = Submitted(form: Form, timerStarted: bool)

  /** `handleSubmit`: the error object always replaces the old one; the timer
      starts, with loading on, exactly when both rules hold. */
  function Submit(f: Form): (r: Submitted)
    ensures r.form.password == f.password && r.form.confirmPassword == f.confirmPassword
    ensures r.form.success == f.success
    ensures r.form.errors == Check(f.password, f.confirmPassword)
    ensures r.timerStarted <==> Acceptable(f.password, f.confirmPassword)
    ensures r.timerStarted ==> r.form.loading
    ensures !r.timerStarted ==> r.form.loading == f.loading
  {
    var e := Check(f.password, f.confirmPassword);
    if KeyCount(e) > 0 then Submitted(f.(errors := e), false)
    else Submitted(f.(errors := e, loading := true), true)
  }

  /** The timer callback. */
  function Settle(f: Form): (r: Form)
    ensures r.password == "" && r.confirmPassword == ""
    ensures !r.loading && r.success && r.errors == f.errors
  {
    f.(loading := false, success := true, password := "", confirmPassword := "")
  }

  /** A five-character password is refused even when both fields agree, two
      different six-character passwords are refused for the mismatch alone,
      and a short, mismatched pair gets both messages at once. */
  lemma RuleExamples()
    ensures !Submit(Form("abcde", "abcde", false, Errors(None, None), false)).timerStarted
    ensures var r := Submit(Form("abcdef", "abcdeg", false, Errors(None, None), false));
      !r.timerStarted && r.form.errors == Errors(None, Some(Mismatch))
    ensures Submit(Form("abc", "abd", false, Errors(None, None), false)).form.errors
      == Errors(Some(TooShort), Some(Mismatch))
  {
  }

  /** The length rule counts UTF-16 code units: three emoji are six units, so
      a password of three emoji passes the rule. */
  lemma SurrogatePairsCountTwice()
    ensures var pw := "\U{1F600}\U{1F600}\U{1F600}";
      |pw| == 3 && Submit(Form(pw, pw, false, Errors(None, None), false)).timerStarted
  {
    var pw := "\U{1F600}\U{1F600}\U{1F600}";
    assert Utf16Length(pw[2..]) == 2;
    assert Utf16Length(pw[1..]) == 4;
  }
}
