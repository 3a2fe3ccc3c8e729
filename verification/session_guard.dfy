/** The request guard of server/src/middlewares/isAuthenticated.ts.
    `jwt.verify` is a parameter that either decodes claims or throws one of the
    jsonwebtoken error classes. */
module SessionGuard {
  import opened Wrappers

  /** Errors `jwt.verify` can throw. In jsonwebtoken, `TokenExpiredError` and
      `NotBeforeError` are subclasses of `JsonWebTokenError`. */
  datatype JwtError = JsonWebTokenError | TokenExpiredError | NotBeforeError | OtherError

  /** `error instanceof jwt.JsonWebTokenError`, subclasses included. */
  predicate IsJsonWebTokenError(e: JwtError) {
    e != OtherError
  }

  /** `error instanceof jwt.TokenExpiredError`. */
  predicate IsTokenExpiredError(e: JwtError) {
    e == TokenExpiredError
  }

  /** The decoded payload; `userId` is absent when the token carries none. */
  datatype Claims = Claims(userId: Option<string>)

  datatype Verification = Decoded(claims: Option<Claims>) | Threw(error: JwtError)

  /** `jwt.verify(token, secret)`. */
  type Verifier = (string, string) -> Verification

  datatype Reply = Reply(status: int, message: string)

  /** What the guard does to a request: the reply it sends (none when it lets
      the request through), the identity it attaches, and how often it calls
      `next`. */
  datatype Decision = Decision(reply: Option<Reply>, reqId: Option<string>, nextCalls: nat)

  const NotAuthenticated := Reply(401, "User not authenticated")
  const ConfigError := Reply(500, "Server configuration error")
  const InvalidToken := Reply(401, "Invalid token")
  const TokenExpired := Reply(401, "Token expired")
  const InternalError := Reply(500, "Internal server error")

  function Reject(reply: Reply): Decision {
    Decision(Some(reply), None, 0)
  }

  /** The catch block as written: the first `instanceof` test that matches
      decides. */
  function CatchAsWritten(e: JwtError): (r: Reply)
    ensures r != TokenExpired
    ensures r == InvalidToken <==> e != OtherError
    ensures r == InternalError <==> e == OtherError
  {
    if IsJsonWebTokenError(e) then InvalidToken
    else if IsTokenExpiredError(e) then TokenExpired
    else InternalError
  }

  /** The catch block with the more specific class checked first. */
  function CatchCorrected(e: JwtError): (r: Reply)
    ensures r == TokenExpired <==> e == TokenExpiredError
    ensures r == InvalidToken <==> e == JsonWebTokenError || e == NotBeforeError
    ensures r == InternalError <==> e == OtherError
  {
    if IsTokenExpiredError(e) then TokenExpired
    else if IsJsonWebTokenError(e) then InvalidToken
    else InternalError
  }

  /** A cookie and a secret are present and `jwt.verify` gives `v`. */
  predicate VerifiesTo(cookie: Option<string>, secret: Option<string>, verify: Verifier, v: Verification) {
    Truthy(cookie) && Truthy(secret) && verify(cookie.value, secret.value) == v
  }

  /** `isAuthenticated` with a given catch block. */
  function Guard(cookie: Option<string>, secret: Option<string>, verify: Verifier,
                 catchBlock: JwtError -> Reply): (d: Decision)
    // a missing cookie is refused first, without looking at the secret
    ensures !Truthy(cookie) ==> d == Reject(NotAuthenticated)
    // a missing secret is a server fault, distinct from a bad token
    ensures Truthy(cookie) && !Truthy(secret) ==> d == Reject(ConfigError)
    // a thrown error is answered by the catch block
    ensures forall e :: VerifiesTo(cookie, secret, verify, Threw(e)) ==> d == Reject(catchBlock(e))
    // a payload with a user id lets the request through with that identity
    ensures forall u :: VerifiesTo(cookie, secret, verify, Decoded(Some(Claims(Some(u))))) && u != "" ==>
      d == Decision(None, Some(u), 1)
    // no payload, or one without a user id, is an invalid token
    ensures VerifiesTo(cookie, secret, verify, Decoded(None))
      || VerifiesTo(cookie, secret, verify, Decoded(Some(Claims(None))))
      || VerifiesTo(cookie, secret, verify, Decoded(Some(Claims(Some("")))))
      ==> d == Reject(InvalidToken)
    // next is called exactly once on success and never otherwise
    ensures d.nextCalls == 1 <==> d.reply.None?
    ensures d.nextCalls <= 1
    ensures d.reply.None? ==>
      && Truthy(cookie) && Truthy(secret)
      && verify(cookie.value, secret.value).Decoded?
      && verify(cookie.value, secret.value).claims.Some?
      && Truthy(verify(cookie.value, secret.value).claims.value.userId)
      && d.reqId == verify(cookie.value, secret.value).claims.value.userId
    ensures d.reply.Some? ==> d.reqId.None?
  {
    if !Truthy(cookie) then Reject(NotAuthenticated)
    else if !Truthy(secret) then Reject(ConfigError)
    else
      match verify(cookie.value, secret.value)
      case Threw(e) => Reject(catchBlock(e))
      case Decoded(claims) =>
        if claims.None? || !Truthy(claims.value.userId) then Reject(InvalidToken)
        else Decision(None, claims.value.userId, 1)
  }

  /** The middleware as written. Every error of the jsonwebtoken family,
      expiry included, is an invalid token; any other error is a 500. */
  function IsAuthenticated(cookie: Option<string>, secret: Option<string>, verify: Verifier)
    : (d: Decision)
    ensures d.reply.Some? ==> d.reply.value in {NotAuthenticated, ConfigError, InvalidToken, InternalError}
    ensures !Truthy(cookie) ==> d == Reject(NotAuthenticated)
    ensures Truthy(cookie) && !Truthy(secret) ==> d == Reject(ConfigError)
    ensures VerifiesTo(cookie, secret, verify, Threw(JsonWebTokenError))
      || VerifiesTo(cookie, secret, verify, Threw(TokenExpiredError))
      || VerifiesTo(cookie, secret, verify, Threw(NotBeforeError))
      ==> d == Reject(InvalidToken)
    ensures VerifiesTo(cookie, secret, verify, Threw(OtherError)) ==> d == Reject(InternalError)
    ensures forall u :: VerifiesTo(cookie, secret, verify, Decoded(Some(Claims(Some(u))))) && u != "" ==>
      d == Decision(None, Some(u), 1)
    ensures d.reply.None? <==> d.nextCalls == 1
  {
    Guard(cookie, secret, verify, CatchAsWritten)
  }

  /** The middleware with the catch block reordered: only an expired token is
      answered differently from the code as written. */
  function IsAuthenticatedCorrected(cookie: Option<string>, secret: Option<string>, verify: Verifier)
    : (d: Decision)
    ensures VerifiesTo(cookie, secret, verify, Threw(TokenExpiredError)) ==> d == Reject(TokenExpired)
    ensures VerifiesTo(cookie, secret, verify, Threw(JsonWebTokenError))
      || VerifiesTo(cookie, secret, verify, Threw(NotBeforeError))
      ==> d == Reject(InvalidToken)
    ensures VerifiesTo(cookie, secret, verify, Threw(OtherError)) ==> d == Reject(InternalError)
    ensures !VerifiesTo(cookie, secret, verify, Threw(TokenExpiredError)) ==>
      d == IsAuthenticated(cookie, secret, verify)
  {
    Guard(cookie, secret, verify, CatchCorrected)
  }

  /** As written, no request is ever answered "Token expired": an expired token
      is reported as an invalid one. */
  lemma ExpiredBranchUnreachable(cookie: Option<string>, secret: Option<string>, verify: Verifier)
    ensures IsAuthenticated(cookie, secret, verify).reply != Some(TokenExpired)
    ensures Truthy(cookie) && Truthy(secret) && verify(cookie.value, secret.value) == Threw(TokenExpiredError)
      ==> IsAuthenticated(cookie, secret, verify).reply == Some(InvalidToken)
  {
  }

  /** Without a cookie the decision does not depend on the secret or on the
      verifier. */
  lemma NoCookieIgnoresSecret(cookie: Option<string>, s1: Option<string>, s2: Option<string>,
                              v1: Verifier, v2: Verifier)
    requires !Truthy(cookie)
    ensures IsAuthenticated(cookie, s1, v1) == IsAuthenticated(cookie, s2, v2)
  {
  }

  /** A payload decoded without a user id is refused as an invalid token. */
  lemma MissingUserIdIsInvalid(cookie: Option<string>, secret: Option<string>, verify: Verifier)
    requires Truthy(cookie) && Truthy(secret)
    requires verify(cookie.value, secret.value) == Decoded(Some(Claims(None)))
    ensures IsAuthenticated(cookie, secret, verify) == Reject(InvalidToken)
  {
  }
}
