/** The state handlers of client/src/auth/Register.tsx. The page keeps the
    typed values, a loading flag and the per-field error object; a passing
    submit starts a 1.5-second timer that resets the form. The page has no
    address input and its initial state has no address. */
module RegisterForm {
  import opened Wrappers
  import opened UserSchema
  import opened FormErrors
  import opened Text

  /** The fields an `<input>` of text kind may name. */
  type TextField = f: Field | f != TermsAccepted witness FullName

  datatype Input = Input(
    fullName: string, email: string, password: string, confirmPassword: string,
    contactNumber: string, address: Option<string>, termsAccepted: bool)

  /** The value of a text field; only the address can be absent. */
  function Get(input: Input, f: TextField): Option<string> {
    match f
    case FullName => Some(input.fullName)
    case Email => Some(input.email)
    case Password => Some(input.password)
    case ConfirmPassword => Some(input.confirmPassword)
    case ContactNumber => Some(input.contactNumber)
    case Address => input.address
  }

  /** A change event: text typed into a named input, or the checkbox. */
  datatype Event = Typed(name: TextField, value: string) | Ticked(checked: bool)

  /** The inputs the page renders. */
  predicate OnPage(e: Event) {
    e.Ticked? || e.name != Address
  }

  datatype Form = Form(input: Input, loading: bool, errors: ErrorMap)

  /** The initial state, and the state the timer resets to. */
  function Initial(): (f: Form)
    ensures f.input.address.None? && !f.input.termsAccepted
    ensures forall g: TextField :: g != Address ==> Get(f.input, g) == Some("")
    ensures !f.loading && f.errors == map[]
  {
    Form(Input("", "", "", "", "", None, false), false, map[])
  }

  /** `changeEventHandler`: the checkbox sets only the terms flag, any other
      input sets only the field it names, and every change clears all
      errors. */
  function Change(f: Form, e: Event): (r: Form)
    ensures r.loading == f.loading && r.errors == map[]
    ensures e.Ticked? ==> r.input == f.input.(termsAccepted := e.checked)
    ensures e.Typed? ==> (
      && Get(r.input, e.name) == Some(e.value)
      && r.input.termsAccepted == f.input.termsAccepted
      && forall g: TextField :: g != e.name ==> Get(r.input, g) == Get(f.input, g))
  {
    var input :=
      match e
      case Ticked(c) => f.input.(termsAccepted := c)
      case Typed(FullName, v) => f.input.(fullName := v)
      case Typed(Email, v) => f.input.(email := v)
      case Typed(Password, v) => f.input.(password := v)
      case Typed(ConfirmPassword, v) => f.input.(confirmPassword := v)
      case Typed(ContactNumber, v) => f.input.(contactNumber := v)
      case Typed(Address, v) => f.input.(address := Some(v));
    Form(input, f.loading, map[])
  }

  /** A run of change events. */
  function Run(f: Form, events: seq<Event>): Form
    decreases |events|
  {
    if |events| == 0 then f else Run(Change(f, events[0]), events[1..])
  }

  /** The object handed to the schema: a copy of the input. */
  function Data(input: Input): RegisterData {
    RegisterData(input.fullName, input.email, input.password, input.confirmPassword,
                 input.contactNumber, input.address, input.termsAccepted)
  }

  datatype Submitted = Submitted(form: Form, timerStarted: bool)

  /** `registerSubmitHandler`: a failed validation stores the collected
      errors and returns with loading untouched; a passing one turns loading
      on and starts the timer. The input is never changed here. */
  function Submit(f: Form, isEmail: EmailCheck): (r: Submitted)
    ensures r.form.input == f.input
    ensures r.timerStarted <==> RegisterRules(Data(f.input), isEmail)
    ensures !r.timerStarted ==>
      r.form.loading == f.loading && r.form.errors == Collect(RegisterIssues(Data(f.input), isEmail))
    ensures r.timerStarted ==> r.form.loading && r.form.errors == f.errors
  {
    var issues := RegisterIssues(Data(f.input), isEmail);
    RegisterIssuesEmptyIff(Data(f.input), isEmail);
    if issues != [] then Submitted(f.(errors := Collect(issues)), false)
    else Submitted(f.(loading := true), true)
  }

  /** The timer callback: back to the initial state. */
  function Settle(f: Form): (r: Form)
    ensures r == Initial()
  {
    Form(Initial().input, false, map[])
  }

  /** The message the page stores under each field after a failed submit,
      stated rule by rule: a mismatch overwrites the length message under
      `confirmPassword` because it is reported later. */
  function ShownUnder(d: RegisterData, isEmail: EmailCheck, k: Field): Option<string> {
    match k
    case FullName => if Utf16Length(d.fullName) < 2 then Some(FullNameMessage) else None
    case Email => if !isEmail(d.email) then Some(EmailMessage) else None
    case Password => if Utf16Length(d.password) < 6 then Some(PasswordMessage) else None
    case ConfirmPassword =>
      if d.address.Some? && d.password != d.confirmPassword then Some(MismatchMessage)
      else if Utf16Length(d.confirmPassword) < 6 then Some(ConfirmMessage)
      else None
    case ContactNumber => if Utf16Length(d.contactNumber) < 10 then Some(ContactMessage) else None
    case Address =>
      if d.address.None? then Some(RequiredMessage)
      else if Utf16Length(d.address.value) < 5 then Some(AddressMessage)
      else None
    case TermsAccepted => if !d.termsAccepted then Some(TermsMessage) else None
  }

  /** The collected register errors agree with the rule-by-rule table. */
  lemma RegisterErrorMap(d: RegisterData, isEmail: EmailCheck)
    ensures forall k :: k in Collect(RegisterIssues(d, isEmail)) <==> ShownUnder(d, isEmail, k).Some?
    ensures forall k :: k in Collect(RegisterIssues(d, isEmail)) ==>
      Collect(RegisterIssues(d, isEmail))[k] == ShownUnder(d, isEmail, k).value
  {
    CollectRegisterIssues(d, isEmail);
    forall k
      ensures k in Folded(d, isEmail) <==> ShownUnder(d, isEmail, k).Some?
      ensures k in Folded(d, isEmail) ==> Folded(d, isEmail)[k] == ShownUnder(d, isEmail, k).value
    {
      FoldedAt(d, isEmail, k);
    }
  }

  /** `m` with `message` stored under `k` when the rule is broken. */
  function Stored(m: ErrorMap, broken: bool, k: Field, message: string): ErrorMap {
    if broken then m[k := message] else m
  }

  /** The error object the loop builds, one rule at a time in report order. */
  function Folded(d: RegisterData, isEmail: EmailCheck): ErrorMap {
    FoldedTail(FoldedHead(d, isEmail), d)
  }

  /** The first five field rules: name, e-mail, password, confirmation, contact. */
  function HeadIssues(d: RegisterData, isEmail: EmailCheck): seq<Issue> {
    When(Utf16Length(d.fullName) < 2, FullName, FullNameMessage)
    + When(!isEmail(d.email), Email, EmailMessage)
    + When(Utf16Length(d.password) < 6, Password, PasswordMessage)
    + When(Utf16Length(d.confirmPassword) < 6, ConfirmPassword, ConfirmMessage)
    + When(Utf16Length(d.contactNumber) < 10, ContactNumber, ContactMessage)
  }

  function FoldedHead(d: RegisterData, isEmail: EmailCheck): ErrorMap {
    var m1 := Stored(map[], Utf16Length(d.fullName) < 2, FullName, FullNameMessage);
    var m2 := Stored(m1, !isEmail(d.email), Email, EmailMessage);
    var m3 := Stored(m2, Utf16Length(d.password) < 6, Password, PasswordMessage);
    var m4 := Stored(m3, Utf16Length(d.confirmPassword) < 6, ConfirmPassword, ConfirmMessage);
    Stored(m4, Utf16Length(d.contactNumber) < 10, ContactNumber, ContactMessage)
  }

  /** The address, terms and match rules stored over `m`. */
  function FoldedTail(m: ErrorMap, d: RegisterData): ErrorMap {
    var m6 := match d.address
              case None => m[Address := RequiredMessage]
              case Some(a) => Stored(m, Utf16Length(a) < 5, Address, AddressMessage);
    var m7 := Stored(m6, !d.termsAccepted, TermsAccepted, TermsMessage);
    if d.address.None? then m7 else Stored(m7, d.password != d.confirmPassword, ConfirmPassword, MismatchMessage)
  }

  lemma CollectRegisterIssues(d: RegisterData, isEmail: EmailCheck)
    ensures Collect(RegisterIssues(d, isEmail)) == Folded(d, isEmail)
  {
    CollectHead(d, isEmail);
    CollectTail(d, isEmail);
  }

  lemma CollectHead(d: RegisterData, isEmail: EmailCheck)
    ensures Collect(HeadIssues(d, isEmail)) == FoldedHead(d, isEmail)
  {
    var b1, b2, b3 := Utf16Length(d.fullName) < 2, !isEmail(d.email), Utf16Length(d.password) < 6;
    var b4, b5 := Utf16Length(d.confirmPassword) < 6, Utf16Length(d.contactNumber) < 10;
    var p1 := When(b1, FullName, FullNameMessage);
    var p2 := p1 + When(b2, Email, EmailMessage);
    var p3 := p2 + When(b3, Password, PasswordMessage);
    var p4 := p3 + When(b4, ConfirmPassword, ConfirmMessage);
    CollectWhen([], b1, FullName, FullNameMessage);
    assert [] + p1 == p1;
    CollectWhen(p1, b2, Email, EmailMessage);
    CollectWhen(p2, b3, Password, PasswordMessage);
    CollectWhen(p3, b4, ConfirmPassword, ConfirmMessage);
    CollectWhen(p4, b5, ContactNumber, ContactMessage);
  }

  lemma CollectTail(d: RegisterData, isEmail: EmailCheck)
    requires Collect(HeadIssues(d, isEmail)) == FoldedHead(d, isEmail)
    ensures Collect(RegisterIssues(d, isEmail)) == Folded(d, isEmail)
  {
    var p5 := HeadIssues(d, isEmail);
    var address := match d.address
                   case None => [Issue([Address], RequiredMessage)]
                   case Some(a) => When(Utf16Length(a) < 5, Address, AddressMessage);
    var p6 := p5 + address;
    var p7 := p6 + When(!d.termsAccepted, TermsAccepted, TermsMessage);
    assert FieldIssues(d, isEmail) == p7;
    match d.address {
      case None => CollectWhen(p5, true, Address, RequiredMessage);
      case Some(a) => CollectWhen(p5, Utf16Length(a) < 5, Address, AddressMessage);
    }
    CollectWhen(p6, !d.termsAccepted, TermsAccepted, TermsMessage);
    if d.address.Some? {
      CollectWhen(p7, d.password != d.confirmPassword, ConfirmPassword, MismatchMessage);
    }
  }

  lemma FoldedAt(d: RegisterData, isEmail: EmailCheck, k: Field)
    ensures k in Folded(d, isEmail) <==> ShownUnder(d, isEmail, k).Some?
    ensures k in Folded(d, isEmail) ==> Folded(d, isEmail)[k] == ShownUnder(d, isEmail, k).value
  {
    var head := FoldedHead(d, isEmail);
    if k != Address && k != TermsAccepted && k != ConfirmPassword {
      TailKeeps(head, d, k);
    }
  }

  /** The tail rules touch only the address, terms and confirmation keys. */
  lemma TailKeeps(m: ErrorMap, d: RegisterData, k: Field)
    requires k != Address && k != TermsAccepted && k != ConfirmPassword
    ensures (k in FoldedTail(m, d) <==> k in m) && (k in m ==> FoldedTail(m, d)[k] == m[k])
  {
  }

  /** A confirmation that is both too short and different shows only
      "Passwords do not match". */
  lemma MismatchHidesShortConfirmation(d: RegisterData, isEmail: EmailCheck)
    requires d.address.Some? && d.password != d.confirmPassword && Utf16Length(d.confirmPassword) < 6
    ensures Collect(RegisterIssues(d, isEmail))[ConfirmPassword] == MismatchMessage
  {
    RegisterErrorMap(d, isEmail);
  }

  /** No input on the page sets the address, so a form that starts without
      one never gets one. */
  lemma {:induction false} PageNeverSetsAddress(f: Form, events: seq<Event>)
    requires f.input.address.None?
    requires forall i :: 0 <= i < |events| ==> OnPage(events[i])
    ensures Run(f, events).input.address.None?
    decreases |events|
  {
    if |events| > 0 {
      PageNeverSetsAddress(Change(f, events[0]), events[1..]);
    }
  }

  /** Without an address, submit always fails and stores the "Required"
      message under the address key, an error the page never displays. */
  lemma NoAddressNoSubmit(f: Form, isEmail: EmailCheck)
    requires f.input.address.None?
    ensures !Submit(f, isEmail).timerStarted
    ensures Address in Submit(f, isEmail).form.errors
  {
    var issues := RegisterIssues(Data(f.input), isEmail);
    var i :| 0 <= i < |issues| && issues[i] == Issue([Address], RequiredMessage);
    assert Mentions(issues, Address) by { assert Keyed(issues[i], Address); }
  }

  /** As written, no sequence of edits on the page leads to a registration,
      whatever the user types. */
  lemma RegistrationUnreachable(events: seq<Event>, isEmail: EmailCheck)
    requires forall i :: 0 <= i < |events| ==> OnPage(events[i])
    ensures !Submit(Run(Initial(), events), isEmail).timerStarted
  {
    PageNeverSetsAddress(Initial(), events);
    NoAddressNoSubmit(Run(Initial(), events), isEmail);
  }

  /** The intended page: the address starts empty and has an input of its
      own. */
  function InitialWithAddress(): (f: Form)
    ensures f.input.address == Some("") && !f.loading && f.errors == map[]
  {
    Initial().(input := Initial().input.(address := Some("")))
  }

  /** On the intended page, a user who fills every field correctly can
      register. */
  lemma IntendedPageRegisters(email: string, isEmail: EmailCheck)
    requires isEmail(email)
    ensures var f := Run(InitialWithAddress(), FilledIn(email));
      Submit(f, isEmail).timerStarted
  {
    var f := Run(InitialWithAddress(), FilledIn(email));
    FilledInInput(email);
    assert RegisterRules(Data(f.input), isEmail);
  }

  /** The intended page after the edits holds exactly what was typed. */
  lemma FilledInInput(email: string)
    ensures Run(InitialWithAddress(), FilledIn(email)).input
      == Input("Al", email, "secret", "secret", "0123456789", Some("1 Main St"), true)
  {
    var f := Run(InitialWithAddress(), FilledIn(email));
    var evs := FilledIn(email);
    var f0 := InitialWithAddress();
    var f1 := Change(f0, evs[0]);
    var f2 := Change(f1, evs[1]);
    var f3 := Change(f2, evs[2]);
    var f4 := Change(f3, evs[3]);
    var f5 := Change(f4, evs[4]);
    var f6 := Change(f5, evs[5]);
    var f7 := Change(f6, evs[6]);
    assert Run(f0, evs) == Run(f1, evs[1..]);
    assert evs[1..][0] == evs[1] && evs[1..][1..] == evs[2..];
    assert Run(f1, evs[1..]) == Run(f2, evs[2..]);
    assert evs[2..][0] == evs[2] && evs[2..][1..] == evs[3..];
    assert Run(f2, evs[2..]) == Run(f3, evs[3..]);
    assert evs[3..][0] == evs[3] && evs[3..][1..] == evs[4..];
    assert Run(f3, evs[3..]) == Run(f4, evs[4..]);
    assert evs[4..][0] == evs[4] && evs[4..][1..] == evs[5..];
    assert Run(f4, evs[4..]) == Run(f5, evs[5..]);
    assert evs[5..][0] == evs[5] && evs[5..][1..] == evs[6..];
    assert Run(f5, evs[5..]) == Run(f6, evs[6..]);
    assert evs[6..][0] == evs[6] && evs[6..][1..] == [];
    assert Run(f6, evs[6..]) == f7;
    assert f.input == Input("Al", email, "secret", "secret", "0123456789", Some("1 Main St"), true);
  }

  /** Edits that fill every field, the address included. */
  function FilledIn(email: string): (events: seq<Event>)
    ensures |events| == 7
  {
    [Typed(FullName, "Al"), Typed(Email, email), Typed(Password, "secret"),
     Typed(ConfirmPassword, "secret"), Typed(ContactNumber, "0123456789"),
     Typed(Address, "1 Main St"), Ticked(true)]
  }
}
