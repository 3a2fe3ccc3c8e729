/** The session-cookie issuer of server/src/utils/generateToken.ts. The
    process environment is an explicit `Env` value and `jwt.sign` a function
    parameter, so only the decisions around them are modelled. */
module SessionToken {
  import opened Wrappers

  /** The environment variables the server core reads. */
  datatype Env = Env(
    jwtSecret: Option<string>,
    jwtExpiresIn: Option<string>,
    nodeEnv: Option<string>,
    frontendUrl: Option<string>)

  /** The claims signed into a session token. */
  datatype Payload = Payload(userId: string, email: string)

  datatype SameSite = Strict | Lax | NoRestriction

  /** A `Set-Cookie` instruction. */
  datatype Cookie = Cookie(
    name: string, value: string, httpOnly: bool, sameSite: SameSite, maxAge: int, secure: bool)

  /** `jwt.sign(payload, secret, { expiresIn })`. */
  type Signer = (Payload, string, string) -> string

  const DayMs: int := 24 * 60 * 60 * 1000
  const WeekMs: int := 7 * DayMs

  const MissingSecret: string := "JWT secret not found in environment variables"

  /** `process.env.JWT_EXPIRES_IN || '1d'`. */
  function ExpiresIn(env: Env): (e: string)
    ensures Truthy(env.jwtExpiresIn) ==> e == env.jwtExpiresIn.value
    ensures !Truthy(env.jwtExpiresIn) ==> e == "1d"
  {
    if Truthy(env.jwtExpiresIn) then env.jwtExpiresIn.value else "1d"
  }

  /** Cookie lifetime: a week only for the literal "7d", a day otherwise. */
  function MaxAge(expiresIn: string): (m: int)
    ensures m == WeekMs <==> expiresIn == "7d"
    ensures m == DayMs <==> expiresIn != "7d"
  {
    if expiresIn == "7d" then WeekMs else DayMs
  }

  datatype Issued = Issued(token: string, cookie: Cookie)

  /** `generateToken(res, user)`: throws when the secret is missing, before
      anything is signed or any cookie written; otherwise signs the user's id
      and e-mail and sets the `token` cookie to the signed value. */
  function GenerateToken(env: Env, userId: string, email: string, sign: Signer)
    : (r: Result<Issued, string>)
    ensures r.Failure? <==> !Truthy(env.jwtSecret)
    ensures r.Failure? ==> r.error == MissingSecret
    ensures r.Success? ==>
      && r.value.token == sign(Payload(userId, email), env.jwtSecret.value, ExpiresIn(env))
      && r.value.cookie.name == "token"
      && r.value.cookie.value == r.value.token
      && r.value.cookie.httpOnly
      && r.value.cookie.sameSite == Strict
      && (r.value.cookie.maxAge == WeekMs <==> ExpiresIn(env) == "7d")
      && (r.value.cookie.maxAge == DayMs <==> ExpiresIn(env) != "7d")
      && (r.value.cookie.secure <==> env.nodeEnv == Some("production"))
  {
    if !Truthy(env.jwtSecret) then Failure(MissingSecret)
    else
      var expiresIn := ExpiresIn(env);
      var token := sign(Payload(userId, email), env.jwtSecret.value, expiresIn);
      var maxAge := MaxAge(expiresIn);
      Success(Issued(token, Cookie("token", token, true, Strict, maxAge, env.nodeEnv == Some("production"))))
  }

  /** With no expiry configured the cookie lives one day, and a configured
      "2h" or "30d" still gives a one-day cookie. */
  lemma MaxAgeExamples(env: Env, userId: string, email: string, sign: Signer)
    requires Truthy(env.jwtSecret)
    requires env.jwtExpiresIn in {None, Some(""), Some("2h"), Some("30d")}
    ensures GenerateToken(env, userId, email, sign).Success?
    ensures GenerateToken(env, userId, email, sign).value.cookie.maxAge == 86400000
  {
  }
}
