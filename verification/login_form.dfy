/** The state handlers of client/src/auth/Login.tsx: typed values, a loading
    flag and the per-field error object. A passing submit turns loading on
    and a 1.5-second timer turns it off again; the page sends nothing. */
module LoginForm {
  import opened Text
  import opened UserSchema
  import opened FormErrors

  datatype Input = Input(email: string, password: string)

  /** The two inputs of the page. */
  datatype LoginField = EmailInput | PasswordInput

  datatype Form = Form(input: Input, loading: bool, errors: ErrorMap)

  function Initial(): (f: Form)
    ensures f.input == Input("", "") && !f.loading && f.errors == map[]
  {
    Form(Input("", ""), false, map[])
  }

  /** `changeEventHandler`: only the named field changes, and every error is
      cleared. */
  function Change(f: Form, name: LoginField, value: string): (r: Form)
    ensures r.loading == f.loading && r.errors == map[]
    ensures name == EmailInput ==> r.input.email == value && r.input.password == f.input.password
    ensures name == PasswordInput ==> r.input.password == value && r.input.email == f.input.email
  {
    match name
    case EmailInput => Form(f.input.(email := value), f.loading, map[])
    case PasswordInput => Form(f.input.(password := value), f.loading, map[])
  }

  function Data(input: Input): LoginData {
    LoginData(input.email, input.password)
  }

  datatype Submitted = Submitted(form: Form, timerStarted: bool)

  /** `loginSubmitHandler`: a failed validation stores the collected errors
      and returns with loading untouched; a passing one turns loading on and
      starts the timer. */
  function Submit(f: Form, isEmail: EmailCheck): (r: Submitted)
    ensures r.form.input == f.input
    ensures r.timerStarted <==> LoginRules(Data(f.input), isEmail)
    ensures !r.timerStarted ==>
      r.form.loading == f.loading && r.form.errors == Collect(LoginIssues(Data(f.input), isEmail))
    ensures r.timerStarted ==> r.form.loading && r.form.errors == f.errors
  {
    var issues := LoginIssues(Data(f.input), isEmail);
    if issues != [] then Submitted(f.(errors := Collect(issues)), false)
    else Submitted(f.(loading := true), true)
  }

  /** The timer callback: loading stops and the input stays. */
  function Settle(f: Form): (r: Form)
    ensures !r.loading && r.input == f.input && r.errors == f.errors
  {
    f.(loading := false)
  }

  /** A failed submit shows an error for each broken rule and for nothing
      else, each with its rule's message. */
  lemma FailedSubmitErrors(f: Form, isEmail: EmailCheck)
    ensures var e := Submit(f, isEmail).form.errors;
      !Submit(f, isEmail).timerStarted ==>
        (Email in e <==> !isEmail(f.input.email))
        && (Password in e <==> Utf16Length(f.input.password) < 6)
        && (Email in e ==> e[Email] == EmailMessage)
        && (Password in e ==> e[Password] == PasswordMessage)
        && (forall k :: k in e ==> k == Email || k == Password)
  {
    LoginErrorMap(Data(f.input), isEmail);
  }

  /** The collected login errors, written out. */
  lemma LoginErrorMap(d: LoginData, isEmail: EmailCheck)
    ensures Collect(LoginIssues(d, isEmail)) ==
      var m: ErrorMap := if isEmail(d.email) then map[] else map[Email := EmailMessage];
      if Utf16Length(d.password) < 6 then m[Password := PasswordMessage] else m
  {
    var issues := LoginIssues(d, isEmail);
    var emailIssue := Issue([Email], EmailMessage);
    var passwordIssue := Issue([Password], PasswordMessage);
    CollectSnoc([], emailIssue);
    CollectSnoc([], passwordIssue);
    assert [] + [emailIssue] == [emailIssue] && [] + [passwordIssue] == [passwordIssue];
    if !isEmail(d.email) && Utf16Length(d.password) < 6 {
      assert issues == [emailIssue] + [passwordIssue];
      CollectSnoc([emailIssue], passwordIssue);
    } else if !isEmail(d.email) {
      assert issues == [emailIssue];
    } else if Utf16Length(d.password) < 6 {
      assert issues == [passwordIssue];
    } else {
      assert issues == [];
    }
  }
}
