/** `generateToken`: checks the JWT environment, signs a JSON Web Token (RFC 7519) whose payload
    is the user id and email, writes it to the `token` cookie of the response and returns it.
    The signature is abstract: a token records the payload and the lifetime it was signed with. */
module SessionToken {
  import opened Wrappers
  import opened Text

  /** The process environment read at each call; an unset variable is the empty string. */
  datatype Env = Env(jwtSecret: string, jwtExpire: string, nodeEnv: string)

  predicate EnvReady(env: Env) {
    env.jwtSecret != "" && env.jwtExpire != ""
  }

  /** The units the `ms` package reads after an amount, compared without regard to case; the
      empty unit means milliseconds. */
  const TimeUnits: set<string> := {
    "milliseconds", "millisecond", "msecs", "msec", "ms",
    "seconds", "second", "secs", "sec", "s",
    "minutes", "minute", "mins", "min", "m",
    "hours", "hour", "hrs", "hr", "h",
    "days", "day", "d", "weeks", "week", "w",
    "years", "year", "yrs", "yr", "y", ""}

  /** An optionally negative amount, `-?(?:\d+)?\.?\d+`. */
  predicate IsAmount(a: string) {
    if a != "" && a[0] == '-' then UnsignedNumeral(a[1..]) else UnsignedNumeral(a)
  }

  /** Spaces, then a unit or nothing, up to the end of the text. */
  predicate IsUnitSuffix(r: string) {
    if r != "" && r[0] == ' ' then IsUnitSuffix(r[1..]) else ToLower(r) in TimeUnits
  }

  /** The texts `ms` turns into a number of milliseconds: at most 100 UTF-16 code units, an
      amount, then the unit part. For any other text `jwt.sign` cannot compute the expiry of a
      string `expiresIn` and throws. */
  predicate IsTimespan(s: string) {
    Utf16Length(s) <= 100 && exists n | 0 < n <= |s| :: IsAmount(s[..n]) && IsUnitSuffix(s[n..])
  }

  /** An environment `jwt.sign` accepts: the variables are set and the lifetime is a timespan. */
  predicate Signable(env: Env) {
    EnvReady(env) && IsTimespan(env.jwtExpire)
  }

  /** A number followed by a unit part is a timespan when it is short enough. */
  lemma {:induction false} AmountWithUnit(a: string, u: string)
    requires UnsignedNumeral(a) && IsUnitSuffix(u) && Utf16Length(a + u) <= 100
    ensures IsTimespan(a + u)
  {
    assert a[0] != '-' by {
      if !AllDigits(a) {
        var d :| 0 <= d < |a| && a[d] == '.' && d + 1 < |a| && AllDigits(a[..d]) && AllDigits(a[d + 1..]);
        if d > 0 {
          assert a[..d][0] == a[0];
        }
      }
    }
    assert IsAmount(a);
    var s := a + u;
    assert s[..|a|] == a && s[|a|..] == u;
  }

  /** "7d", a lifetime of seven days, is a timespan ... */
  lemma SevenDaysIsTimespan()
    ensures IsTimespan("7d")
  {
    ToLowerFixpoint("d");
    assert IsUnitSuffix("d");
    assert UnsignedNumeral("7") by { assert AllDigits("7"); }
    AmountWithUnit("7", "d");
  }

  /** ... and a word is not, though the environment check lets it through. */
  lemma WordIsNotTimespan()
    ensures !IsTimespan("abc")
    ensures EnvReady(Env("secret", "abc", ""))
  {
    var w := "abc";
    forall n | 0 < n <= |w| ensures !IsAmount(w[..n]) {
      assert w[..n][0] == 'a';
      assert !IsDigit(w[..n][0]);
    }
  }

  /** What a caller puts in the email slot of the payload: a string, or the response object,
      which JSON cannot serialise because it refers back to itself. */
  datatype ClaimValue = StringClaim(s: string) | ResponseObject

  datatype Claims = Claims(userId: nat, email: string)

  datatype Token = Jwt(payload: Claims, expiresIn: string)

  /** Why `generateToken` throws: missing environment, a lifetime that is not a timespan, a
      payload JSON cannot serialise, no response object to set the cookie on. */
  datatype TokenError = MissingEnv | InvalidExpiresIn | UnserializablePayload | NoResponse

  datatype SameSite = Lax

  datatype CookieOptions = CookieOptions(httpOnly: bool, sameSite: Option<SameSite>, secure: bool, maxAge: int)

  datatype CookieValue = TokenValue(token: Token) | Empty

  datatype Cookie = Cookie(value: CookieValue, options: CookieOptions)

  const TokenCookie: string := "token"

  const SevenDaysMs: int := 7 * 24 * 60 * 60 * 1000

  /** The options of the session cookie; the lifetime is fixed and does not follow JWT_EXPIRE. */
  function SessionCookieOptions(env: Env): (o: CookieOptions)
    ensures o.httpOnly && o.sameSite == Some(Lax)
    ensures o.secure <==> env.nodeEnv != "development"
    ensures o.maxAge == 604800000
  {
    CookieOptions(httpOnly := true, sameSite := Some(Lax), secure := env.nodeEnv != "development", maxAge := SevenDaysMs)
  }

  /** The environment check followed by `jwt.sign({ userId, email }, JWT_SECRET, { expiresIn: JWT_EXPIRE })`,
      which computes the expiry before it serialises the payload. */
  function SignToken(env: Env, userId: nat, email: ClaimValue): (r: Result<Token, TokenError>)
    ensures !EnvReady(env) ==> r == Failure(MissingEnv)
    ensures EnvReady(env) && !IsTimespan(env.jwtExpire) ==> r == Failure(InvalidExpiresIn)
    ensures r.Success? <==> Signable(env) && email.StringClaim?
    ensures r.Success? ==> r.value.payload == Claims(userId, email.s) && r.value.expiresIn == env.jwtExpire
  {
    if !EnvReady(env) then Failure(MissingEnv)
    else if !IsTimespan(env.jwtExpire) then Failure(InvalidExpiresIn)
    else if email.ResponseObject? then Failure(UnserializablePayload)
    else Success(Jwt(Claims(userId, email.s), env.jwtExpire))
  }

  /** The cookies a response carries. */
  class Response {
    var cookies: map<string, Cookie>

    constructor ()
      ensures cookies == map[]
    {
      cookies := map[];
    }

    /** `res.cookie(name, value, options)`. */
    method SetCookie(name: string, value: CookieValue, options: CookieOptions)
      modifies this
      ensures cookies == old(cookies)[name := Cookie(value, options)]
    {
      cookies := cookies[name := Cookie(value, options)];
    }
  }

  /** `generateToken(userId, email, res)`; `res` is null when the caller passed no response. A
      failure is the exception the function throws, and no cookie is set then. */
  method GenerateToken(env: Env, userId: nat, email: ClaimValue, res: Response?) returns (r: Result<Token, TokenError>)
    modifies res
    ensures r.Success? <==> Signable(env) && email.StringClaim? && res != null
    ensures !EnvReady(env) ==> r == Failure(MissingEnv)
    ensures r.Success? ==> r == SignToken(env, userId, email)
    ensures res != null ==>
              res.cookies == (if r.Success? then old(res.cookies)[TokenCookie := Cookie(TokenValue(r.value), SessionCookieOptions(env))]
                              else old(res.cookies))
  {
    if !EnvReady(env) {
      return Failure(MissingEnv);
    }
    r := SignToken(env, userId, email);
    if r.Failure? {
      return;
    }
    var cookieOptions := SessionCookieOptions(env);
    if res == null {
      return Failure(NoResponse);
    }
    res.SetCookie(TokenCookie, TokenValue(r.value), cookieOptions);
  }
}
