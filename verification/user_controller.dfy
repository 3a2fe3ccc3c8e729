/** The credential handlers of server/src/controllers/userController.ts as
    transitions over the user store. Each handler takes the store, the request
    fields and every value the source obtains from outside (the clock, random
    draws, bcrypt results, `jwt.sign`, the upload and whether the mail provider
    accepted a message) and returns the reply, the new store and the effects in
    the order they happen. */
module UserController {
  import opened Wrappers
  import opened UserStore
  import SessionToken
  import VerificationCode
  import ResetToken

  /** The transactional e-mails the handlers send. */
  datatype Email =
    | VerificationMail(to: string, code: string)
    | WelcomeMail(to: string, name: string)
    | ResetMail(to: string, link: string)
    | ResetSuccessMail(to: string)

  /** Observable effects: a record saved, a mail handed to the provider, the
      session cookie set or cleared. */
  datatype Effect = Wrote(id: string) | Sent(mail: Email) | SetCookie(cookie: SessionToken.Cookie) | ClearCookie

  /** The JSON reply. Some catch blocks answer without `success`, and
      `checkAuth` answers without `message`. */
  datatype Reply = Reply(status: int, success: Option<bool>, message: Option<string>, user: Option<PublicUser>)

  datatype Outcome = Outcome(reply: Reply, store: Store, effects: seq<Effect>)

  /** Lifetime of a verification code: 24 hours. */
  const VerificationLifetimeMs: int := 24 * 60 * 60 * 1000

  /** Lifetime of a reset token: 1 hour. */
  const ResetLifetimeMs: int := 1 * 60 * 60 * 1000

  function Fail(status: int, message: string): Reply {
    Reply(status, Some(false), Some(message), None)
  }

  const InternalError := Fail(500, "Internal server error")

  /** The reply of the catch blocks that omit `success`. */
  const BareInternalError := Reply(500, None, Some("Internal server error"), None)

  const IncorrectCredentials := Fail(400, "Incorrect email or password")

  /** Position of the first write, or the length when nothing was written. */
  function FirstWrite(effects: seq<Effect>): (k: nat)
    ensures k <= |effects|
    ensures k < |effects| ==> effects[k].Wrote?
    ensures forall j :: 0 <= j < k ==> !effects[j].Wrote?
    decreases |effects|
  {
    if |effects| == 0 || effects[0].Wrote? then 0 else 1 + FirstWrite(effects[1..])
  }

  /** Every mail is sent after some record was written. */
  predicate MailAfterWrite(effects: seq<Effect>) {
    forall i :: 0 <= i < |effects| && effects[i].Sent? ==> FirstWrite(effects) < i
  }

  /** No record changes its `isVerified` flag, and none is removed. */
  predicate VerifiedFlagsKept(before: Store, after: Store) {
    |before| <= |after| && forall j :: 0 <= j < |before| ==> after[j].isVerified == before[j].isVerified
  }

  // ---------------------------------------------------------------- signup

  datatype SignupRequest = SignupRequest(
    fullname: Option<string>, email: Option<string>, password: Option<string>, contact: Option<string>)

  predicate SignupComplete(req: SignupRequest) {
    Truthy(req.fullname) && Truthy(req.email) && Truthy(req.password) && Truthy(req.contact)
  }

  /** The record `User.create` stores for a new account. */
  function NewUser(req: SignupRequest, id: string, digest: Digest, code: string, now: int): User
    requires SignupComplete(req)
  {
    User(id, req.fullname.value, req.email.value, digest, req.contact.value,
         None, None, None, None, false, Some(code), Some(now + VerificationLifetimeMs),
         None, None, None)
  }

  /** `signup`. `digest` is `bcrypt.hash(password, 10)`, `draws` are the
      generator's random picks and `freshId` is the id the database assigns. */
  function Signup(store: Store, req: SignupRequest, env: SessionToken.Env, now: int,
                  freshId: string, digest: Digest, draws: seq<VerificationCode.Draw>,
                  sign: SessionToken.Signer, mailDelivered: bool): (o: Outcome)
    requires |draws| == VerificationCode.DefaultLength
    ensures !SignupComplete(req) ==> o == Outcome(Fail(400, "All fields are required"), store, [])
    ensures SignupComplete(req) && FindByEmail(store, req.email.value).Some? ==>
      o == Outcome(Fail(400, "User already exists with this email"), store, [])
    ensures SignupComplete(req) && FindByEmail(store, req.email.value).None? ==>
      && |o.store| == |store| + 1 && o.store[..|store|] == store
      && o.store[|store|].id == freshId
      && o.store[|store|].fullname == req.fullname.value
      && o.store[|store|].email == req.email.value
      && o.store[|store|].contact == req.contact.value
      && o.store[|store|].address.None? && o.store[|store|].city.None? && o.store[|store|].country.None?
      && o.store[|store|].profilePicture.None? && o.store[|store|].lastLogin.None?
      && o.store[|store|].password == digest
      && !o.store[|store|].isVerified
      && o.store[|store|].verificationToken == Some(VerificationCode.Spell(draws))
      && o.store[|store|].verificationTokenExpiresAt == Some(now + VerificationLifetimeMs)
      && o.store[|store|].resetPasswordToken.None?
      && |o.effects| > 0 && o.effects[0] == Wrote(freshId)
      && (o.reply.status == 201 <==> Truthy(env.jwtSecret) && mailDelivered)
      && (o.reply.status != 201 ==> o.reply == InternalError)
      && (o.reply.status == 201 ==> o.reply.user == Some(WithoutPassword(o.store[|store|])))
    // the record is saved, then the session cookie is set and the code mailed;
    // without a secret nothing follows the write
    ensures SignupComplete(req) && FindByEmail(store, req.email.value).None? ==>
      if Truthy(env.jwtSecret) then
        o.effects == [Wrote(freshId),
                      SetCookie(SessionToken.GenerateToken(env, freshId, req.email.value, sign).value.cookie),
                      Sent(VerificationMail(req.email.value, VerificationCode.Spell(draws)))]
      else o.effects == [Wrote(freshId)]
    ensures MailAfterWrite(o.effects)
    ensures VerifiedFlagsKept(store, o.store)
  {
    if !SignupComplete(req) then Outcome(Fail(400, "All fields are required"), store, [])
    else if FindByEmail(store, req.email.value).Some? then
      Outcome(Fail(400, "User already exists with this email"), store, [])
    else
      var code := VerificationCode.Spell(draws);
      var user := NewUser(req, freshId, digest, code, now);
      var created := store + [user];
      assert created[..|store|] == store;
      match SessionToken.GenerateToken(env, freshId, user.email, sign)
      case Failure(_) => Outcome(InternalError, created, [Wrote(freshId)])
      case Success(issued) =>
        var effects := [Wrote(freshId), SetCookie(issued.cookie), Sent(VerificationMail(user.email, code))];
        if !mailDelivered then Outcome(InternalError, created, effects)
        else
          var found := FindByEmail(created, user.email);
          assert found == Some(|store|) by {
            assert created[|store|].email == user.email;
            assert forall j :: 0 <= j < |store| ==> created[j] == store[j];
          }
          Outcome(Reply(201, Some(true),
                        Some("Account created successfully. Please check your email for verification."),
                        Some(WithoutPassword(created[found.value]))),
                  created, effects)
  }

  // ----------------------------------------------------------------- login

  /** `login`. `compare` is `bcrypt.compare`. */
  function Login(store: Store, email: Option<string>, password: Option<string>,
                 env: SessionToken.Env, now: int, compare: (string, Digest) -> bool,
                 sign: SessionToken.Signer): (o: Outcome)
    ensures !Truthy(email) || !Truthy(password) ==>
      o == Outcome(Fail(400, "Email and password are required"), store, [])
    // an unknown e-mail and a wrong password are answered identically
    ensures Truthy(email) && Truthy(password) && FindByEmail(store, email.value).None? ==>
      o == Outcome(IncorrectCredentials, store, [])
    ensures (Truthy(email) && Truthy(password) && FindByEmail(store, email.value).Some?
             && !compare(password.value, store[FindByEmail(store, email.value).value].password))
      ==> o == Outcome(IncorrectCredentials, store, [])
    // success changes only the last-login time of the matched record
    ensures o.reply.status == 200 ==>
      && Truthy(email) && Truthy(password) && Truthy(env.jwtSecret)
      && FindByEmail(store, email.value).Some?
      && var i := FindByEmail(store, email.value).value;
         && compare(password.value, store[i].password)
         && o.store == Put(store, i, store[i].(lastLogin := Some(now)))
         && o.reply.user == Some(WithoutPassword(o.store[i]))
    // correct credentials succeed exactly when a secret is configured
    ensures (Truthy(email) && Truthy(password) && FindByEmail(store, email.value).Some?
             && compare(password.value, store[FindByEmail(store, email.value).value].password))
      ==> (o.reply.status == 200 <==> Truthy(env.jwtSecret))
          && (!Truthy(env.jwtSecret) ==> o == Outcome(InternalError, store, []))
    // success sets the session cookie of the matched account, then saves it
    ensures o.reply.status == 200 ==>
      var u := store[FindByEmail(store, email.value).value];
      && o.reply.message == Some("Welcome back " + u.fullname)
      && o.effects == [SetCookie(SessionToken.GenerateToken(env, u.id, u.email, sign).value.cookie), Wrote(u.id)]
    ensures o.reply.status != 200 ==> o.store == store
    ensures VerifiedFlagsKept(store, o.store)
  {
    if !Truthy(email) || !Truthy(password) then
      Outcome(Fail(400, "Email and password are required"), store, [])
    else match FindByEmail(store, email.value)
      case None => Outcome(IncorrectCredentials, store, [])
      case Some(i) =>
        var user := store[i];
        if !compare(password.value, user.password) then Outcome(IncorrectCredentials, store, [])
        else match SessionToken.GenerateToken(env, user.id, user.email, sign)
          case Failure(_) => Outcome(InternalError, store, [])
          case Success(issued) =>
            var saved := Put(store, i, user.(lastLogin := Some(now)));
            var found := FindByEmail(saved, email.value);
            assert found == Some(i) by {
              assert forall j :: 0 <= j < |store| ==> saved[j].email == store[j].email;
            }
            Outcome(Reply(200, Some(true), Some("Welcome back " + user.fullname),
                          Some(WithoutPassword(saved[i]))),
                    saved, [SetCookie(issued.cookie), Wrote(user.id)])
  }

  // ---------------------------------------------------------- verify-email

  /** `verifyEmail`. */
  function VerifyEmail(store: Store, code: string, now: int, mailDelivered: bool): (o: Outcome)
    ensures FindByVerificationCode(store, code, now).None? <==> o.reply.status == 400
    ensures o.reply.status == 400 ==>
      o == Outcome(Fail(400, "Invalid or expired verification token"), store, [])
    ensures FindByVerificationCode(store, code, now).Some? ==>
      var i := FindByVerificationCode(store, code, now).value;
      && store[i].verificationTokenExpiresAt.value > now
      && o.store == Put(store, i, store[i].(isVerified := true, verificationToken := None,
                                             verificationTokenExpiresAt := None))
      && (o.reply.status == 200 <==> mailDelivered)
      && (!mailDelivered ==> o.reply == BareInternalError)
      // the verified record is saved, then the welcome mail goes to it
      && o.effects == [Wrote(store[i].id), Sent(WelcomeMail(store[i].email, store[i].fullname))]
    ensures MailAfterWrite(o.effects)
  {
    match FindByVerificationCode(store, code, now)
    case None => Outcome(Fail(400, "Invalid or expired verification token"), store, [])
    case Some(i) =>
      var user := store[i].(isVerified := true, verificationToken := None, verificationTokenExpiresAt := None);
      var saved := Put(store, i, user);
      var effects := [Wrote(user.id), Sent(WelcomeMail(user.email, user.fullname))];
      if !mailDelivered then Outcome(BareInternalError, saved, effects)
      else Outcome(Reply(200, Some(true), Some("Email verified successfully."), Some(WithoutPassword(user))),
                   saved, effects)
  }

  // ---------------------------------------------------------------- logout

  /** `logout`: clears the cookie and always succeeds. */
  function Logout(store: Store): (o: Outcome)
    ensures o.store == store && o.effects == [ClearCookie] && o.reply.status == 200
  {
    Outcome(Reply(200, Some(true), Some("Logged out successfully."), None), store, [ClearCookie])
  }

  // ------------------------------------------------------- forgot-password

  /** `${process.env.FRONTEND_URL}`: an unset variable prints as "undefined". */
  function FrontendUrl(env: SessionToken.Env): string {
    match env.frontendUrl
    case Some(url) => url
    case None => "undefined"
  }

  /** `forgotPassword`. `bytes` are the 40 bytes `crypto.randomBytes` draws. */
  function ForgotPassword(store: Store, email: string, env: SessionToken.Env, now: int,
                          bytes: seq<ResetToken.Byte>, mailDelivered: bool): (o: Outcome)
    requires |bytes| == ResetToken.TokenBytes
    ensures FindByEmail(store, email).None? ==>
      o == Outcome(Fail(400, "User doesn't exist"), store, [])
    ensures FindByEmail(store, email).Some? ==>
      var i := FindByEmail(store, email).value;
      && o.store == Put(store, i, store[i].(resetPasswordToken := Some(ResetToken.Hex(bytes)),
                                             resetPasswordTokenExpiresAt := Some(now + ResetLifetimeMs)))
      && o.effects == [Wrote(store[i].id),
                       Sent(ResetMail(store[i].email, FrontendUrl(env) + "/resetpassword/" + ResetToken.Hex(bytes)))]
      && (o.reply.status == 200 <==> mailDelivered)
      && (!mailDelivered ==> o.reply == BareInternalError)
    ensures MailAfterWrite(o.effects)
    ensures VerifiedFlagsKept(store, o.store)
  {
    match FindByEmail(store, email)
    case None => Outcome(Fail(400, "User doesn't exist"), store, [])
    case Some(i) =>
      var token := ResetToken.Hex(bytes);
      var user := store[i].(resetPasswordToken := Some(token), resetPasswordTokenExpiresAt := Some(now + ResetLifetimeMs));
      var saved := Put(store, i, user);
      var effects := [Wrote(user.id), Sent(ResetMail(user.email, FrontendUrl(env) + "/resetpassword/" + token))];
      assert effects[0].Wrote?;
      if !mailDelivered then Outcome(BareInternalError, saved, effects)
      else Outcome(Reply(200, Some(true), Some("Password reset link sent to your email"), None), saved, effects)
  }

  // -------------------------------------------------------- reset-password

  /** `resetPassword`. `digest` is `bcrypt.hash(newPassword, 10)`. */
  function ResetPassword(store: Store, token: string, digest: Digest, now: int, mailDelivered: bool)
    : (o: Outcome)
    ensures FindByResetToken(store, token, now).None? <==> o.reply.status == 400
    ensures o.reply.status == 400 ==> o == Outcome(Fail(400, "Invalid or expired reset token"), store, [])
    ensures FindByResetToken(store, token, now).Some? ==>
      var i := FindByResetToken(store, token, now).value;
      && store[i].resetPasswordTokenExpiresAt.value > now
      && o.store == Put(store, i, store[i].(password := digest, resetPasswordToken := None,
                                             resetPasswordTokenExpiresAt := None))
      && (o.reply.status == 200 <==> mailDelivered)
      && (!mailDelivered ==> o.reply == BareInternalError)
      // the new digest is saved, then the confirmation mail goes to the account
      && o.effects == [Wrote(store[i].id), Sent(ResetSuccessMail(store[i].email))]
    ensures MailAfterWrite(o.effects)
    ensures VerifiedFlagsKept(store, o.store)
  {
    match FindByResetToken(store, token, now)
    case None => Outcome(Fail(400, "Invalid or expired reset token"), store, [])
    case Some(i) =>
      var user := store[i].(password := digest, resetPasswordToken := None, resetPasswordTokenExpiresAt := None);
      var saved := Put(store, i, user);
      var effects := [Wrote(user.id), Sent(ResetSuccessMail(user.email))];
      if !mailDelivered then Outcome(BareInternalError, saved, effects)
      else Outcome(Reply(200, Some(true), Some("Password reset successfully."), None), saved, effects)
  }

  // ------------------------------------------------------------ check-auth

  /** `checkAuth`: reads the record of the identity the guard attached. */
  function CheckAuth(store: Store, reqId: string): (o: Outcome)
    ensures o.store == store && o.effects == []
    ensures FindById(store, reqId).None? ==> o.reply == Fail(404, "User not found")
    ensures FindById(store, reqId).Some? ==>
      o.reply.status == 200 && o.reply.user == Some(WithoutPassword(store[FindById(store, reqId).value]))
  {
    match FindById(store, reqId)
    case None => Outcome(Fail(404, "User not found"), store, [])
    case Some(i) => Outcome(Reply(200, Some(true), None, Some(WithoutPassword(store[i]))), store, [])
  }

  // -------------------------------------------------------- update-profile

  datatype ProfileRequest = ProfileRequest(
    fullname: string, email: string, address: string, city: string, country: string,
    profilePicture: Option<string>)

  /** `updateProfile`. `upload` is the secure URL the media store returns, or
      `None` when the upload throws; it is consulted only when a picture was
      sent. No check is made that the new e-mail is free. */
  function UpdateProfile(store: Store, reqId: string, req: ProfileRequest, upload: Option<string>)
    : (o: Outcome)
    ensures Truthy(req.profilePicture) && upload.None? ==>
      o == Outcome(Fail(400, "Failed to upload profile picture"), store, [])
    ensures !(Truthy(req.profilePicture) && upload.None?) && FindById(store, reqId).None? ==>
      o == Outcome(Fail(404, "User not found"), store, [])
    // with the upload settled and the account found, the update succeeds and
    // saves that account
    ensures !(Truthy(req.profilePicture) && upload.None?) && FindById(store, reqId).Some? ==>
      o.reply.status == 200 && o.effects == [Wrote(reqId)]
    ensures o.reply.status == 200 ==>
      FindById(store, reqId).Some? &&
      var i := FindById(store, reqId).value;
      && |o.store| == |store|
      && (forall j :: 0 <= j < |store| && j != i ==> o.store[j] == store[j])
      // the five request fields are written
      && o.store[i].fullname == req.fullname && o.store[i].email == req.email
      && o.store[i].address == Some(req.address) && o.store[i].city == Some(req.city)
      && o.store[i].country == Some(req.country)
      // the picture changes only after a successful upload
      && o.store[i].profilePicture ==
           (if Truthy(req.profilePicture) then upload else store[i].profilePicture)
      // credentials, tokens and verification state are never touched
      && o.store[i].id == store[i].id && o.store[i].password == store[i].password
      && o.store[i].contact == store[i].contact && o.store[i].isVerified == store[i].isVerified
      && o.store[i].verificationToken == store[i].verificationToken
      && o.store[i].verificationTokenExpiresAt == store[i].verificationTokenExpiresAt
      && o.store[i].resetPasswordToken == store[i].resetPasswordToken
      && o.store[i].resetPasswordTokenExpiresAt == store[i].resetPasswordTokenExpiresAt
      && o.store[i].lastLogin == store[i].lastLogin
    ensures o.reply.status != 200 ==> o.store == store
    ensures VerifiedFlagsKept(store, o.store)
  {
    if Truthy(req.profilePicture) && upload.None? then
      Outcome(Fail(400, "Failed to upload profile picture"), store, [])
    else match FindById(store, reqId)
      case None => Outcome(Fail(404, "User not found"), store, [])
      case Some(i) =>
        var picture := if Truthy(req.profilePicture) then upload else store[i].profilePicture;
        var user := store[i].(fullname := req.fullname, email := req.email, address := Some(req.address),
                              city := Some(req.city), country := Some(req.country), profilePicture := picture);
        var saved := Put(store, i, user);
        Outcome(Reply(200, Some(true), Some("Profile updated successfully"), Some(WithoutPassword(user))),
                saved, [Wrote(user.id)])
  }
}
