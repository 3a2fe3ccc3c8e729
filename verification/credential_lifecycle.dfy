/** Properties of the credential handlers across several requests: codes and
    tokens are single-use and expire, a new reset token supersedes the old one,
    login failures do not reveal which check failed, and the store invariant
    survives every handler but the profile update. */
module CredentialLifecycle {
  import opened Wrappers
  import opened UserStore
  import opened UserController
  import SessionToken
  import VerificationCode
  import ResetToken

  /** No record other than `i` carries verification code `code`. */
  predicate SoleCodeHolder(store: Store, i: nat, code: string) {
    forall j :: 0 <= j < |store| && j != i ==> store[j].verificationToken != Some(code)
  }

  /** No record other than `i` carries reset token `token`. */
  predicate SoleTokenHolder(store: Store, i: nat, token: string) {
    forall j :: 0 <= j < |store| && j != i ==> store[j].resetPasswordToken != Some(token)
  }

  /** Once a code has verified a record, that record never matches a code
      again, whatever the code and the time. */
  lemma VerifiedRecordNeverMatchesAgain(store: Store, code: string, now: int, mailDelivered: bool,
                                        code2: string, later: int)
    requires FindByVerificationCode(store, code, now).Some?
    ensures var i := FindByVerificationCode(store, code, now).value;
      FindByVerificationCode(VerifyEmail(store, code, now, mailDelivered).store, code2, later) != Some(i)
  {
  }

  /** A verification code works once: asking again with the same code fails,
      when no other account was issued the same code. */
  lemma {:induction false} VerificationCodeSingleUse(store: Store, code: string, now: int, later: int,
                                                     mail1: bool, mail2: bool)
    requires FindByVerificationCode(store, code, now).Some?
    requires SoleCodeHolder(store, FindByVerificationCode(store, code, now).value, code)
    ensures VerifyEmail(VerifyEmail(store, code, now, mail1).store, code, later, mail2).reply.status == 400
  {
    var i := FindByVerificationCode(store, code, now).value;
    var after := VerifyEmail(store, code, now, mail1).store;
    forall j | 0 <= j < |after| ensures !VerificationMatches(after[j], code, later) {
      if j != i {
        assert after[j] == store[j];
      }
    }
  }

  /** A code whose expiry is not strictly after now fails, even though the
      code string matches. */
  lemma {:induction false} ExpiredCodeFails(store: Store, i: nat, now: int, mailDelivered: bool)
    requires i < |store| && store[i].verificationToken.Some?
    requires store[i].verificationTokenExpiresAt.Some? && store[i].verificationTokenExpiresAt.value <= now
    requires SoleCodeHolder(store, i, store[i].verificationToken.value)
    ensures VerifyEmail(store, store[i].verificationToken.value, now, mailDelivered)
            == Outcome(Fail(400, "Invalid or expired verification token"), store, [])
  {
    var code := store[i].verificationToken.value;
    assert forall j :: 0 <= j < |store| ==> !VerificationMatches(store[j], code, now) by {
      forall j | 0 <= j < |store| ensures !VerificationMatches(store[j], code, now) {
        if j != i {
          assert store[j].verificationToken != Some(code);
        }
      }
    }
  }

  /** Signing up and verifying: the code mailed at signup verifies the new
      account strictly before 24 hours have passed, and fails from then on. */
  lemma {:induction false} SignupThenVerify(store: Store, req: SignupRequest, env: SessionToken.Env, now: int,
                                            freshId: string, digest: Digest, draws: seq<VerificationCode.Draw>,
                                            sign: SessionToken.Signer, mail1: bool, at: int, mail2: bool)
    requires |draws| == VerificationCode.DefaultLength
    requires SignupComplete(req) && FindByEmail(store, req.email.value).None?
    requires forall j :: 0 <= j < |store| ==> store[j].verificationToken != Some(VerificationCode.Spell(draws))
    ensures var created := Signup(store, req, env, now, freshId, digest, draws, sign, mail1).store;
      var o := VerifyEmail(created, VerificationCode.Spell(draws), at, mail2);
      && (at < now + VerificationLifetimeMs ==> o.store[|store|].isVerified)
      && (at >= now + VerificationLifetimeMs ==> o.reply.status == 400 && !o.store[|store|].isVerified)
  {
    var code := VerificationCode.Spell(draws);
    var created := Signup(store, req, env, now, freshId, digest, draws, sign, mail1).store;
    assert forall j :: 0 <= j < |store| ==> created[j] == store[j];
    assert SoleCodeHolder(created, |store|, code);
    if at < now + VerificationLifetimeMs {
      assert VerificationMatches(created[|store|], code, at);
      assert FindByVerificationCode(created, code, at) == Some(|store|);
    } else {
      ExpiredCodeFails(created, |store|, at, mail2);
    }
  }

  /** After a forgot-password request, an earlier reset token no longer
      matches the account: only the latest token can work. */
  lemma ForgotPasswordSupersedesOldToken(store: Store, email: string, env: SessionToken.Env, now: int,
                                         bytes: seq<ResetToken.Byte>, mailDelivered: bool,
                                         oldToken: string, later: int)
    requires |bytes| == ResetToken.TokenBytes
    requires FindByEmail(store, email).Some?
    requires oldToken != ResetToken.Hex(bytes)
    ensures var i := FindByEmail(store, email).value;
      FindByResetToken(ForgotPassword(store, email, env, now, bytes, mailDelivered).store, oldToken, later) != Some(i)
  {
  }

  /** The newly issued reset token sets a new password while it is fresh. */
  lemma {:induction false} FreshResetTokenWorks(store: Store, email: string, env: SessionToken.Env, now: int,
                                                bytes: seq<ResetToken.Byte>, mail1: bool,
                                                digest: Digest, at: int, mail2: bool)
    requires |bytes| == ResetToken.TokenBytes
    requires FindByEmail(store, email).Some?
    requires SoleTokenHolder(store, FindByEmail(store, email).value, ResetToken.Hex(bytes))
    requires at < now + ResetLifetimeMs
    ensures var i := FindByEmail(store, email).value;
      var issued := ForgotPassword(store, email, env, now, bytes, mail1).store;
      var o := ResetPassword(issued, ResetToken.Hex(bytes), digest, at, mail2);
      o.reply.status != 400 && o.store[i].password == digest && o.store[i].resetPasswordToken.None?
  {
    var i := FindByEmail(store, email).value;
    var token := ResetToken.Hex(bytes);
    var issued := ForgotPassword(store, email, env, now, bytes, mail1).store;
    assert ResetMatches(issued[i], token, at);
    forall j | 0 <= j < i ensures !ResetMatches(issued[j], token, at) {
      assert issued[j] == store[j];
    }
    assert FindByResetToken(issued, token, at) == Some(i);
  }

  /** A reset token works once: reusing it fails, when no other account holds
      the same token. */
  lemma {:induction false} ResetTokenSingleUse(store: Store, token: string, d1: Digest, d2: Digest,
                                               now: int, later: int, mail1: bool, mail2: bool)
    requires FindByResetToken(store, token, now).Some?
    requires SoleTokenHolder(store, FindByResetToken(store, token, now).value, token)
    ensures ResetPassword(ResetPassword(store, token, d1, now, mail1).store, token, d2, later, mail2).reply.status == 400
  {
    var i := FindByResetToken(store, token, now).value;
    var after := ResetPassword(store, token, d1, now, mail1).store;
    forall j | 0 <= j < |after| ensures !ResetMatches(after[j], token, later) {
      if j != i {
        assert after[j] == store[j];
      }
    }
  }

  /** An unknown e-mail and a wrong password produce the same reply. */
  lemma LoginFailuresIndistinguishable(store: Store, unknown: string, p1: string, known: string, p2: string,
                                       env: SessionToken.Env, now: int, compare: (string, Digest) -> bool,
                                       sign: SessionToken.Signer)
    requires unknown != "" && p1 != "" && known != "" && p2 != ""
    requires FindByEmail(store, unknown).None?
    requires FindByEmail(store, known).Some? && !compare(p2, store[FindByEmail(store, known).value].password)
    ensures Login(store, Some(unknown), Some(p1), env, now, compare, sign).reply
         == Login(store, Some(known), Some(p2), env, now, compare, sign).reply
  {
  }

  /** A successful signup keeps ids and e-mails unique, given a fresh id. */
  lemma {:induction false} SignupKeepsValid(store: Store, req: SignupRequest, env: SessionToken.Env, now: int,
                                            freshId: string, digest: Digest, draws: seq<VerificationCode.Draw>,
                                            sign: SessionToken.Signer, mailDelivered: bool)
    requires |draws| == VerificationCode.DefaultLength
    requires Valid(store) && FindById(store, freshId).None?
    ensures Valid(Signup(store, req, env, now, freshId, digest, draws, sign, mailDelivered).store)
  {
    var after := Signup(store, req, env, now, freshId, digest, draws, sign, mailDelivered).store;
    if after != store {
      var n := |store|;
      assert SignupComplete(req) && FindByEmail(store, req.email.value).None?;
      forall a, b | 0 <= a < b < |after| ensures after[a].id != after[b].id && after[a].email != after[b].email {
        assert after[a] == store[a];
        if b < n {
          assert after[b] == store[b];
        }
      }
    }
  }

  /** Login, verification and both password-reset steps keep the invariant:
      none of them changes an id or an e-mail. */
  lemma CredentialHandlersKeepValid(store: Store, email: Option<string>, password: Option<string>,
                                    env: SessionToken.Env, now: int,
                                    compare: (string, Digest) -> bool, sign: SessionToken.Signer,
                                    code: string, bytes: seq<ResetToken.Byte>, token: string,
                                    digest: Digest, mailDelivered: bool)
    requires Valid(store) && |bytes| == ResetToken.TokenBytes
    ensures Valid(Login(store, email, password, env, now, compare, sign).store)
    ensures Valid(VerifyEmail(store, code, now, mailDelivered).store)
    ensures Truthy(email) ==> Valid(ForgotPassword(store, email.value, env, now, bytes, mailDelivered).store)
    ensures Valid(ResetPassword(store, token, digest, now, mailDelivered).store)
  {
    LoginKeepsValid(store, email, password, env, now, compare, sign);
    VerifyKeepsValid(store, code, now, mailDelivered);
    if Truthy(email) {
      ForgotKeepsValid(store, email.value, env, now, bytes, mailDelivered);
    }
    ResetKeepsValid(store, token, digest, now, mailDelivered);
  }

  lemma LoginKeepsValid(store: Store, email: Option<string>, password: Option<string>,
                        env: SessionToken.Env, now: int,
                        compare: (string, Digest) -> bool, sign: SessionToken.Signer)
    requires Valid(store)
    ensures Valid(Login(store, email, password, env, now, compare, sign).store)
  {
    if Truthy(email) && FindByEmail(store, email.value).Some? {
      var i := FindByEmail(store, email.value).value;
      PutKeepsValid(store, i, store[i].(lastLogin := Some(now)));
    }
  }

  lemma VerifyKeepsValid(store: Store, code: string, now: int, mailDelivered: bool)
    requires Valid(store)
    ensures Valid(VerifyEmail(store, code, now, mailDelivered).store)
  {
    if FindByVerificationCode(store, code, now).Some? {
      var i := FindByVerificationCode(store, code, now).value;
      PutKeepsValid(store, i, store[i].(isVerified := true, verificationToken := None,
                                        verificationTokenExpiresAt := None));
    }
  }

  lemma ForgotKeepsValid(store: Store, email: string, env: SessionToken.Env, now: int,
                         bytes: seq<ResetToken.Byte>, mailDelivered: bool)
    requires Valid(store) && |bytes| == ResetToken.TokenBytes
    ensures Valid(ForgotPassword(store, email, env, now, bytes, mailDelivered).store)
  {
    if FindByEmail(store, email).Some? {
      var i := FindByEmail(store, email).value;
      PutKeepsValid(store, i, store[i].(resetPasswordToken := Some(ResetToken.Hex(bytes)),
                                        resetPasswordTokenExpiresAt := Some(now + ResetLifetimeMs)));
    }
  }

  lemma ResetKeepsValid(store: Store, token: string, digest: Digest, now: int, mailDelivered: bool)
    requires Valid(store)
    ensures Valid(ResetPassword(store, token, digest, now, mailDelivered).store)
  {
    if FindByResetToken(store, token, now).Some? {
      var i := FindByResetToken(store, token, now).value;
      PutKeepsValid(store, i, store[i].(password := digest, resetPasswordToken := None,
                                        resetPasswordTokenExpiresAt := None));
    }
  }

  /** Verification only ever raises the flag: no verified account becomes
      unverified, and exactly the matched account becomes verified. */
  lemma VerifyOnlyRaisesFlag(store: Store, code: string, now: int, mailDelivered: bool)
    ensures var after := VerifyEmail(store, code, now, mailDelivered).store;
      |after| == |store| &&
      forall j :: 0 <= j < |store| ==>
        after[j].isVerified == (store[j].isVerified || FindByVerificationCode(store, code, now) == Some(j))
  {
  }

  /** A profile update keeps ids and e-mails unique when no other account
      already holds the requested e-mail. */
  lemma {:induction false} UpdateProfileKeepsValid(store: Store, reqId: string, req: ProfileRequest,
                                                   upload: Option<string>)
    requires Valid(store)
    requires forall j :: 0 <= j < |store| && store[j].id != reqId ==> store[j].email != req.email
    ensures Valid(UpdateProfile(store, reqId, req, upload).store)
  {
    var o := UpdateProfile(store, reqId, req, upload);
    if o.reply.status == 200 {
      var i := FindById(store, reqId).value;
      assert store[i].id == reqId;
      forall a, b | 0 <= a < b < |o.store| ensures o.store[a].id != o.store[b].id && o.store[a].email != o.store[b].email {
        if a == i {
          assert o.store[b] == store[b] && store[b].id != reqId;
        } else if b == i {
          assert o.store[a] == store[a] && store[a].id != reqId;
        } else {
          assert o.store[a] == store[a] && o.store[b] == store[b];
        }
      }
    }
  }

  const Alice := User("a1", "Alice", "alice@x.com", Digest("h1"), "5551112222",
                      None, None, None, None, true, None, None, None, None, None)
  const Bob := User("b2", "Bob", "bob@x.com", Digest("h2"), "5553334444",
                    None, None, None, None, true, None, None, None, None, None)

  /** The profile update makes no duplicate-e-mail check: Bob can take
      Alice's address, and the store then holds two accounts with one e-mail. */
  lemma UpdateProfileCanDuplicateEmail()
    ensures Valid([Alice, Bob])
    ensures var o := UpdateProfile([Alice, Bob], "b2",
                                   ProfileRequest("Bob", "alice@x.com", "Road 1", "Dhaka", "BD", None), None);
      o.reply.status == 200 && !Valid(o.store)
  {
    var store := [Alice, Bob];
    assert FindById(store, "b2") == Some(1) by {
      assert store[0].id != "b2" && store[1].id == "b2";
    }
  }
}
