/** The zod rule sets of client/src/schema/userSchema.ts, as the list of issues
    `safeParse` reports. The e-mail format check is a parameter: its rules
    live in the validation library, not in this repository. Lengths count the
    raw string; nothing is trimmed. */
module UserSchema {
  import opened Wrappers
  import opened Text

  /** The fields the two schemas declare. */
  datatype Field =
    | FullName | Email | Password | ConfirmPassword | ContactNumber | Address | TermsAccepted

  /** A reported problem: the path of the offending field and the message. */
  datatype Issue = Issue(path: seq<Field>, message: string)

  type EmailCheck = string -> bool

  const FullNameMessage := "Full Name is required"
  const EmailMessage := "Invalid email address"
  const PasswordMessage := "Password must be at least 6 characters"
  const ConfirmMessage := "Confirm Password is required"
  const ContactMessage := "Contact Number is required"
  const AddressMessage := "Address is required"
  /** The message of a field that is not a string at all. */
  const RequiredMessage := "Required"
  const TermsMessage := "You must accept Terms & Conditions"
  const MismatchMessage := "Passwords do not match"

  /** The object handed to the register schema. An absent `address` is
      `None`; every other field is always present. */
  datatype RegisterData = RegisterData(
    fullName: string, email: string, password: string, confirmPassword: string,
    contactNumber: string, address: Option<string>, termsAccepted: bool)

  /** The register rules, stated field by field. */
  predicate RegisterRules(d: RegisterData, isEmail: EmailCheck) {
    Utf16Length(d.fullName) >= 2 && isEmail(d.email) && Utf16Length(d.password) >= 6
    && Utf16Length(d.confirmPassword) >= 6 && Utf16Length(d.contactNumber) >= 10
    && d.address.Some? && Utf16Length(d.address.value) >= 5
    && d.termsAccepted && d.password == d.confirmPassword
  }

  /** The nine issues the register schema can report. */
  predicate RegisterCatalogue(x: Issue) {
    || x == Issue([FullName], FullNameMessage)
    || x == Issue([Email], EmailMessage)
    || x == Issue([Password], PasswordMessage)
    || x == Issue([ConfirmPassword], ConfirmMessage)
    || x == Issue([ContactNumber], ContactMessage)
    || x == Issue([Address], RequiredMessage)
    || x == Issue([Address], AddressMessage)
    || x == Issue([TermsAccepted], TermsMessage)
    || x == Issue([ConfirmPassword], MismatchMessage)
  }

  function When(broken: bool, field: Field, message: string): seq<Issue> {
    if broken then [Issue([field], message)] else []
  }

  /** The field checks, in the order the object declares its fields. */
  function FieldIssues(d: RegisterData, isEmail: EmailCheck): seq<Issue> {
    When(Utf16Length(d.fullName) < 2, FullName, FullNameMessage)
    + When(!isEmail(d.email), Email, EmailMessage)
    + When(Utf16Length(d.password) < 6, Password, PasswordMessage)
    + When(Utf16Length(d.confirmPassword) < 6, ConfirmPassword, ConfirmMessage)
    + When(Utf16Length(d.contactNumber) < 10, ContactNumber, ContactMessage)
    + (match d.address
       case None => [Issue([Address], RequiredMessage)]
       case Some(a) => When(Utf16Length(a) < 5, Address, AddressMessage))
    + When(!d.termsAccepted, TermsAccepted, TermsMessage)
  }

  /** `registerSchema.safeParse`: the field issues, then the password match
      check, which the library runs only when every field had the right type
      (here: when `address` is present). Each field rule is reported exactly
      when it is broken, and every issue names one field. */
  function RegisterIssues(d: RegisterData, isEmail: EmailCheck): (issues: seq<Issue>)
    ensures SingleFieldPaths(issues)
    ensures forall x :: x in issues ==> RegisterCatalogue(x)
    ensures Issue([FullName], FullNameMessage) in issues <==> Utf16Length(d.fullName) < 2
    ensures Issue([Email], EmailMessage) in issues <==> !isEmail(d.email)
    ensures Issue([Password], PasswordMessage) in issues <==> Utf16Length(d.password) < 6
    ensures Issue([ConfirmPassword], ConfirmMessage) in issues <==> Utf16Length(d.confirmPassword) < 6
    ensures Issue([ContactNumber], ContactMessage) in issues <==> Utf16Length(d.contactNumber) < 10
    ensures Issue([Address], RequiredMessage) in issues <==> d.address.None?
    ensures Issue([Address], AddressMessage) in issues <==> d.address.Some? && Utf16Length(d.address.value) < 5
    ensures Issue([TermsAccepted], TermsMessage) in issues <==> !d.termsAccepted
    ensures Issue([ConfirmPassword], MismatchMessage) in issues
      <==> d.address.Some? && d.password != d.confirmPassword
  {
    var fields := FieldIssues(d, isEmail);
    FieldReports(d, isEmail);
    if d.address.None? then fields
    else fields + When(d.password != d.confirmPassword, ConfirmPassword, MismatchMessage)
  }

  /** What the field checks alone report. */
  lemma FieldReports(d: RegisterData, isEmail: EmailCheck)
    ensures SingleFieldPaths(FieldIssues(d, isEmail))
    ensures Issue([FullName], FullNameMessage) in FieldIssues(d, isEmail) <==> Utf16Length(d.fullName) < 2
    ensures Issue([Email], EmailMessage) in FieldIssues(d, isEmail) <==> !isEmail(d.email)
    ensures Issue([Password], PasswordMessage) in FieldIssues(d, isEmail) <==> Utf16Length(d.password) < 6
    ensures Issue([ConfirmPassword], ConfirmMessage) in FieldIssues(d, isEmail)
      <==> Utf16Length(d.confirmPassword) < 6
    ensures Issue([ContactNumber], ContactMessage) in FieldIssues(d, isEmail)
      <==> Utf16Length(d.contactNumber) < 10
    ensures Issue([Address], RequiredMessage) in FieldIssues(d, isEmail) <==> d.address.None?
    ensures Issue([Address], AddressMessage) in FieldIssues(d, isEmail)
      <==> d.address.Some? && Utf16Length(d.address.value) < 5
    ensures Issue([TermsAccepted], TermsMessage) in FieldIssues(d, isEmail) <==> !d.termsAccepted
    ensures Issue([ConfirmPassword], MismatchMessage) !in FieldIssues(d, isEmail)
    ensures forall x :: x in FieldIssues(d, isEmail) ==> RegisterCatalogue(x)
  {
    FieldPaths(d, isEmail);
    FullNameReport(d, isEmail);
    EmailReport(d, isEmail);
    PasswordReport(d, isEmail);
    ConfirmReport(d, isEmail);
    ContactReport(d, isEmail);
    AddressReport(d, isEmail);
    TermsReport(d, isEmail);
  }

  predicate SingleFieldPaths(issues: seq<Issue>) {
    forall i :: 0 <= i < |issues| ==> |issues[i].path| == 1
  }

  lemma FieldPaths(d: RegisterData, isEmail: EmailCheck)
    ensures SingleFieldPaths(FieldIssues(d, isEmail))
    ensures forall x :: x in FieldIssues(d, isEmail) ==> RegisterCatalogue(x)
  {
  }

  lemma FullNameReport(d: RegisterData, isEmail: EmailCheck)
    ensures Issue([FullName], FullNameMessage) in FieldIssues(d, isEmail) <==> Utf16Length(d.fullName) < 2
  {
  }

  lemma EmailReport(d: RegisterData, isEmail: EmailCheck)
    ensures Issue([Email], EmailMessage) in FieldIssues(d, isEmail) <==> !isEmail(d.email)
  {
  }

  lemma PasswordReport(d: RegisterData, isEmail: EmailCheck)
    ensures Issue([Password], PasswordMessage) in FieldIssues(d, isEmail) <==> Utf16Length(d.password) < 6
  {
  }

  lemma ConfirmReport(d: RegisterData, isEmail: EmailCheck)
    ensures Issue([ConfirmPassword], ConfirmMessage) in FieldIssues(d, isEmail)
      <==> Utf16Length(d.confirmPassword) < 6
    ensures Issue([ConfirmPassword], MismatchMessage) !in FieldIssues(d, isEmail)
  {
  }

  lemma ContactReport(d: RegisterData, isEmail: EmailCheck)
    ensures Issue([ContactNumber], ContactMessage) in FieldIssues(d, isEmail)
      <==> Utf16Length(d.contactNumber) < 10
  {
  }

  lemma AddressReport(d: RegisterData, isEmail: EmailCheck)
    ensures Issue([Address], RequiredMessage) in FieldIssues(d, isEmail) <==> d.address.None?
    ensures Issue([Address], AddressMessage) in FieldIssues(d, isEmail)
      <==> d.address.Some? && Utf16Length(d.address.value) < 5
  {
  }

  lemma TermsReport(d: RegisterData, isEmail: EmailCheck)
    ensures Issue([TermsAccepted], TermsMessage) in FieldIssues(d, isEmail) <==> !d.termsAccepted
  {
  }

  /** Validation succeeds exactly when every register rule holds. */
  lemma RegisterIssuesEmptyIff(d: RegisterData, isEmail: EmailCheck)
    ensures RegisterIssues(d, isEmail) == [] <==> RegisterRules(d, isEmail)
  {
    var issues := RegisterIssues(d, isEmail);
    if issues == [] {
      assert d.address.Some?;
    }
  }

  /** Without an address the mismatch is never reported, however the two
      passwords differ, and validation cannot succeed. */
  lemma MissingAddressHidesMismatch(d: RegisterData, isEmail: EmailCheck)
    requires d.address.None?
    ensures Issue([Address], RequiredMessage) in RegisterIssues(d, isEmail)
    ensures Issue([ConfirmPassword], MismatchMessage) !in RegisterIssues(d, isEmail)
  {
  }

  datatype LoginData = LoginData(email: string, password: string)

  predicate LoginRules(d: LoginData, isEmail: EmailCheck) {
    isEmail(d.email) && Utf16Length(d.password) >= 6
  }

  /** `loginSchema.safeParse`: an e-mail issue, then a password issue. */
  function LoginIssues(d: LoginData, isEmail: EmailCheck): (issues: seq<Issue>)
    ensures SingleFieldPaths(issues)
    ensures Issue([Email], EmailMessage) in issues <==> !isEmail(d.email)
    ensures Issue([Password], PasswordMessage) in issues <==> Utf16Length(d.password) < 6
    ensures issues == [] <==> LoginRules(d, isEmail)
  {
    When(!isEmail(d.email), Email, EmailMessage)
    + When(Utf16Length(d.password) < 6, Password, PasswordMessage)
  }
}
