/** The authentication handlers: signup, email verification, code resend, login, the three-step
    password reset, logout and the auth-status check. Each handler loads one account by email,
    runs a chain of guards, updates fields and saves, all as one atomic step on the store.
    The clock (`now`, in milliseconds), the `Math.random()` draw, the bcrypt salt, the JWT
    environment and the response object are parameters. Mail delivery has no effect on the
    outcome (its errors are swallowed) and is not modelled. */
module AuthController {
  import opened Wrappers
  import opened Text
  import opened PasswordHasher
  import opened CodeGenerator
  import opened UserModel
  import opened SessionToken

  /** Lifetime of both kinds of code: ten minutes. */
  const CodeLifetimeMs: int := 10 * 60 * 1000

  /** Minimum interval between two resends of the verification code: one minute. */
  const ResendCooldownMs: int := 60 * 1000

  /** The failure replies of the handlers, one per message. */
  datatype AuthError =
    | MissingFields
    | EmailExists
    | UserNotFound
    | AlreadyVerified
    | VerificationCodeExpired
    | InvalidVerificationCode
    | TooManyRequests(waitSeconds: int)
    | InvalidCredentials
    | ResetCodeExpired
    | InvalidResetCode
    | ResetNotAuthorized
    | Unauthorized
    | ServerError

  /** The HTTP status each failure is sent with. A closed reset gate is a 400, like every other
      failed check on a code. */
  function StatusOf(e: AuthError): (status: nat)
    ensures status == 401 <==> e == InvalidCredentials || e == Unauthorized
    ensures status == 404 <==> e == UserNotFound
    ensures status == 429 <==> e.TooManyRequests?
    ensures status == 500 <==> e == ServerError
    ensures status == 400 || status == 401 || status == 404 || status == 429 || status == 500
  {
    match e
    case UserNotFound => 404
    case TooManyRequests(_) => 429
    case InvalidCredentials => 401
    case Unauthorized => 401
    case ServerError => 500
    case _ => 400
  }

  /** A handler's reply: a success status with the session token it issued, if any, or a failure. */
  datatype Reply = Done(status: nat, token: Option<Token>) | Failed(error: AuthError)

  /** The reply of a handler whose last step is `generateToken`: a thrown error becomes a 500. */
  function TokenReply(t: Result<Token, TokenError>): (r: Reply)
    ensures r.Done? <==> t.Success?
    ensures t.Success? ==> r == Done(200, Some(t.value))
    ensures t.Failure? ==> r == Failed(ServerError)
  {
    if t.Success? then Done(200, Some(t.value)) else Failed(ServerError)
  }

  /** The cookies after a `generateToken` call with a real response object. */
  function CookiesAfter(cookies: map<string, Cookie>, t: Result<Token, TokenError>, env: Env): (c: map<string, Cookie>) {
    if t.Success? then cookies[TokenCookie := Cookie(TokenValue(t.value), SessionCookieOptions(env))] else cookies
  }

  // ---------------------------------------------------------------------------------------------
  // Guards

  /** The expiry test of both code checks: no expiry stored, or `now` strictly after it. The
      instant of expiry itself still passes. */
  predicate CodeExpired(expires: Option<int>, now: int) {
    expires.None? || now > expires.value
  }

  /** `Math.ceil(ms / 1000)` for a positive number of milliseconds. */
  function CeilSeconds(ms: int): (s: int)
    requires ms > 0
    ensures (s - 1) * 1000 < ms <= s * 1000
  {
    (ms + 999) / 1000
  }

  /** The resend throttle: the number of seconds to wait, or `None` when a new code may be sent.
      An account that never asked for a resend is never throttled. */
  function CooldownWait(lastRequestAt: Option<int>, now: int): (wait: Option<int>)
    ensures wait.Some? <==> lastRequestAt.Some? && now - lastRequestAt.value < ResendCooldownMs
    ensures wait.Some? ==> (wait.value - 1) * 1000 < ResendCooldownMs - (now - lastRequestAt.value) <= wait.value * 1000
    ensures wait.Some? && lastRequestAt.value <= now ==> 1 <= wait.value <= 60
  {
    if lastRequestAt.Some? && now - lastRequestAt.value < ResendCooldownMs then
      Some(CeilSeconds(ResendCooldownMs - (now - lastRequestAt.value)))
    else None
  }

  /** The checks `verifyEmail` runs on the account it found, in order: already verified, then
      expired, then a code that differs from the stored one. */
  function VerifyEmailCheck(a: Account, code: string, now: int): (e: Option<AuthError>)
    ensures e == Some(AlreadyVerified) <==> a.isVerified
    ensures e == Some(VerificationCodeExpired) <==> !a.isVerified && CodeExpired(a.verificationCodeExpires, now)
    ensures e == Some(InvalidVerificationCode) <==>
              !a.isVerified && !CodeExpired(a.verificationCodeExpires, now) && a.verificationCode != Some(code)
    ensures e.None? <==> !a.isVerified && !CodeExpired(a.verificationCodeExpires, now) && a.verificationCode == Some(code)
  {
    if a.isVerified then Some(AlreadyVerified)
    else if CodeExpired(a.verificationCodeExpires, now) then Some(VerificationCodeExpired)
    else if a.verificationCode != Some(code) then Some(InvalidVerificationCode)
    else None
  }

  /** The checks `verifyResetCode` runs on the account it found, in order: expired, then a code
      that differs from the stored one. */
  function ResetCodeCheck(a: Account, code: string, now: int): (e: Option<AuthError>)
    ensures e == Some(ResetCodeExpired) <==> CodeExpired(a.resetCodeExpires, now)
    ensures e == Some(InvalidResetCode) <==> !CodeExpired(a.resetCodeExpires, now) && a.resetCode != Some(code)
    ensures e.None? <==> !CodeExpired(a.resetCodeExpires, now) && a.resetCode == Some(code)
  {
    if CodeExpired(a.resetCodeExpires, now) then Some(ResetCodeExpired)
    else if a.resetCode != Some(code) then Some(InvalidResetCode)
    else None
  }

  // ---------------------------------------------------------------------------------------------
  // The invariant on codes and the reset gate

  /** How the code fields of a saved account hang together: a code and its expiry are set and
      cleared together, every stored code has six digits, a verified account holds no
      verification code, and an open reset gate holds no reset code. */
  predicate CodesConsistent(a: Account) {
    && (a.verificationCode.Some? <==> a.verificationCodeExpires.Some?)
    && (a.verificationCode.Some? ==> IsSixDigitCode(a.verificationCode.value))
    && (a.isVerified ==> a.verificationCode.None?)
    && (a.resetCode.Some? <==> a.resetCodeExpires.Some?)
    && (a.resetCode.Some? ==> IsSixDigitCode(a.resetCode.value))
    && (a.canResetPassword ==> a.resetCode.None?)
  }

  /** The password-reset state of an account. */
  datatype ResetGate = Idle | CodeRequested | CodeVerified

  function Gate(a: Account): (g: ResetGate) {
    if a.canResetPassword then CodeVerified
    else if a.resetCode.Some? then CodeRequested
    else Idle
  }

  // ---------------------------------------------------------------------------------------------
  // Field updates of the successful paths, each followed by a save that stamps `updatedAt`

  /** The document signup saves: a new account holding an unverified code that expires ten
      minutes later. */
  function SignupAccount(id: nat, email: string, fullname: FullName, hashed: Hashed, code: string, now: int): (a: Account)
    requires IsSixDigitCode(code)
    ensures CodesConsistent(a) && Gate(a) == Idle
    ensures !a.isVerified && a.verificationCode == Some(code)
    ensures a.verificationCodeExpires == Some(now + CodeLifetimeMs)
    ensures CooldownWait(a.lastOtpRequestAt, now) == None
    ensures a.email == NormalizeEmail(email) && a.id == id
    ensures WellFormed(a) <==> WellFormed(NewAccount(id, email, fullname, hashed, now))
  {
    NewAccount(id, email, fullname, hashed, now).(
      verificationCode := Some(code),
      isVerified := false,
      verificationCodeExpires := Some(now + CodeLifetimeMs))
  }

  function EmailVerified(a: Account, now: int): (b: Account)
    ensures CodesConsistent(a) ==> CodesConsistent(b)
    ensures Gate(b) == Gate(a)
    ensures WellFormed(a) ==> WellFormed(b)
  {
    a.(isVerified := true, verificationCode := None, verificationCodeExpires := None, updatedAt := now)
  }

  function CodeRotated(a: Account, code: string, now: int): (b: Account)
    requires !a.isVerified && IsSixDigitCode(code)
    ensures CodesConsistent(a) ==> CodesConsistent(b)
    ensures Gate(b) == Gate(a)
    ensures WellFormed(a) ==> WellFormed(b)
  {
    a.(verificationCode := Some(code), verificationCodeExpires := Some(now + CodeLifetimeMs),
       lastOtpRequestAt := Some(now), updatedAt := now)
  }

  function ResetIssued(a: Account, code: string, now: int): (b: Account)
    requires IsSixDigitCode(code)
    ensures CodesConsistent(a) ==> CodesConsistent(b)
    ensures Gate(b) == CodeRequested
    ensures WellFormed(a) ==> WellFormed(b)
  {
    a.(resetCode := Some(code), resetCodeExpires := Some(now + CodeLifetimeMs),
       lastPasswordResetRequestAt := Some(now), canResetPassword := false, updatedAt := now)
  }

  function ResetVerified(a: Account, now: int): (b: Account)
    ensures CodesConsistent(a) ==> CodesConsistent(b)
    ensures Gate(b) == CodeVerified
    ensures WellFormed(a) ==> WellFormed(b)
  {
    a.(canResetPassword := true, resetCode := None, resetCodeExpires := None, updatedAt := now)
  }

  function PasswordReplaced(a: Account, hashed: Hashed, now: int): (b: Account)
    ensures CodesConsistent(a) ==> CodesConsistent(b)
    ensures Gate(b) == Idle
    ensures WellFormed(a) ==> WellFormed(b)
  {
    a.(password := Some(hashed), canResetPassword := false, resetCode := None, resetCodeExpires := None,
       updatedAt := now)
  }

  // ---------------------------------------------------------------------------------------------
  // The account store and the handlers

  /** What every saved state of the collection satisfies: each account is filed under its own
      email (the unique index), passes the schema's checks, keeps its codes consistent, and has an
      id below the next fresh one that no other account shares. */
  ghost predicate StoreInvariant(users: map<string, Account>, nextId: nat) {
    && (forall k | k in users ::
          users[k].email == k && WellFormed(users[k]) && CodesConsistent(users[k]) && users[k].id < nextId)
    && (forall k1, k2 | k1 in users && k2 in users && users[k1].id == users[k2].id :: k1 == k2)
  }

  /** Saving an account over itself, with the same id and email, keeps the invariant. */
  lemma {:induction false} ReplaceKeepsInvariant(users: map<string, Account>, nextId: nat, k: string, b: Account)
    requires StoreInvariant(users, nextId)
    requires k in users && b.id == users[k].id && b.email == k
    requires WellFormed(b) && CodesConsistent(b)
    ensures StoreInvariant(users[k := b], nextId)
  {
    var u := users[k := b];
    forall k1, k2 | k1 in u && k2 in u && u[k1].id == u[k2].id ensures k1 == k2 {
      assert u[k1].id == users[k1].id && u[k2].id == users[k2].id;
    }
  }

  /** Inserting a new account under a fresh email with the next fresh id keeps the invariant. */
  lemma {:induction false} InsertKeepsInvariant(users: map<string, Account>, nextId: nat, b: Account)
    requires StoreInvariant(users, nextId)
    requires b.email !in users && b.id == nextId
    requires WellFormed(b) && CodesConsistent(b)
    ensures StoreInvariant(users[b.email := b], nextId + 1)
  {
    var u := users[b.email := b];
    forall k1, k2 | k1 in u && k2 in u && u[k1].id == u[k2].id ensures k1 == k2 {
      if k1 != b.email && k2 != b.email {
        assert u[k1].id == users[k1].id && u[k2].id == users[k2].id;
      }
    }
  }

  /** The `users` collection, keyed by the stored (normalised) email, and the next fresh id. */
  class UserStore {
    var users: map<string, Account>
    var nextId: nat

    ghost predicate Valid()
      reads this
    {
      StoreInvariant(users, nextId)
    }

    constructor ()
      ensures Valid() && users == map[] && nextId == 0
    {
      users := map[];
      nextId := 0;
    }

    /** `user.save()` on a document that was loaded under `key`: the document replaces the stored
        one, and the invariant holds when the document passes the schema and keeps its codes
        consistent. */
    method Save(key: string, user: Account)
      requires Valid()
      requires key in users && user.id == users[key].id && user.email == key
      requires WellFormed(user) && CodesConsistent(user)
      modifies this`users
      ensures Valid()
      ensures users == old(users)[key := user]
    {
      ReplaceKeepsInvariant(users, nextId, key, user);
      users := users[key := user];
    }

    /** `User.findById(id)`: the account with that id, without its password. */
    function FindById(id: nat): (r: Option<Account>)
      reads this
      requires Valid()
      ensures r.None? <==> forall k | k in users :: users[k].id != id
      ensures r.Some? ==> r.value.email in users && r.value == Selected(users[r.value.email], false) && r.value.id == id
    {
      if exists k | k in users :: users[k].id == id then
        var k :| k in users && users[k].id == id;
        Some(Selected(users[k], false))
      else None
    }

    /** `signupUser`: refuses an email that is already registered; otherwise saves a new
        unverified account with a fresh code. A document that fails the schema's checks on save
        makes the handler answer 500. */
    method SignupUser(email: string, fullname: FullName, password: string, salt: nat, draw: real, now: int)
      returns (reply: Reply)
      requires Valid()
      requires 0.0 <= draw < 1.0
      modifies this
      ensures Valid()
      ensures NormalizeEmail(email) in old(users) ==>
                reply == Failed(EmailExists) && users == old(users) && nextId == old(nextId)
      ensures NormalizeEmail(email) !in old(users) ==>
                var a := SignupAccount(old(nextId), email, fullname, Hash(password, salt), IssueCode(draw), now);
                if WellFormed(a) then
                  reply == Done(201, None) && users == old(users)[a.email := a] && nextId == old(nextId) + 1
                else
                  reply == Failed(ServerError) && users == old(users) && nextId == old(nextId)
    {
      var key := NormalizeEmail(email);
      if key in users {
        return Failed(EmailExists);
      }
      var hashPassword := Hash(password, salt);
      var verificationCode := IssueCode(draw);
      var newUser := SignupAccount(nextId, email, fullname, hashPassword, verificationCode, now);
      if !WellFormed(newUser) {
        return Failed(ServerError);
      }
      InsertKeepsInvariant(users, nextId, newUser);
      users := users[key := newUser];
      nextId := nextId + 1;
      reply := Done(201, None);
    }

    /** `verifyEmail`: on the right, unexpired code marks the account verified, clears the code and
        issues a session token. Every failed check leaves the store and the cookies as they were. */
    method VerifyEmail(email: string, code: string, now: int, env: Env, res: Response) returns (reply: Reply)
      requires Valid()
      modifies this`users, res
      ensures Valid()
      ensures email == "" || code == "" ==>
                reply == Failed(MissingFields) && users == old(users) && res.cookies == old(res.cookies)
      ensures email != "" && code != "" && NormalizeEmail(email) !in old(users) ==>
                reply == Failed(UserNotFound) && users == old(users) && res.cookies == old(res.cookies)
      ensures email != "" && code != "" && NormalizeEmail(email) in old(users) ==>
                var k := NormalizeEmail(email);
                var a := old(users)[k];
                var t := SignToken(env, a.id, StringClaim(k));
                if VerifyEmailCheck(a, code, now).Some? then
                  reply == Failed(VerifyEmailCheck(a, code, now).value) && users == old(users)
                  && res.cookies == old(res.cookies)
                else
                  users == old(users)[k := EmailVerified(a, now)]
                  && reply == TokenReply(t) && res.cookies == CookiesAfter(old(res.cookies), t, env)
    {
      if email == "" || code == "" {
        return Failed(MissingFields);
      }
      var key := NormalizeEmail(email);
      if key !in users {
        return Failed(UserNotFound);
      }
      var user := users[key];
      if user.isVerified {
        return Failed(AlreadyVerified);
      }
      if user.verificationCodeExpires.None? || now > user.verificationCodeExpires.value {
        return Failed(VerificationCodeExpired);
      }
      if user.verificationCode != Some(code) {
        return Failed(InvalidVerificationCode);
      }
      user := EmailVerified(user, now);
      Save(key, user);
      var token := GenerateToken(env, user.id, StringClaim(user.email), res);
      reply := TokenReply(token);
    }

    /** `resendVerificationCode`: for an unverified account outside the one-minute cooldown,
        replaces the code, restarts its ten minutes and records the request time. */
    method ResendVerificationCode(email: string, draw: real, now: int) returns (reply: Reply)
      requires Valid()
      requires 0.0 <= draw < 1.0
      modifies this`users
      ensures Valid()
      ensures email == "" ==> reply == Failed(MissingFields) && users == old(users)
      ensures email != "" && NormalizeEmail(email) !in old(users) ==>
                reply == Failed(UserNotFound) && users == old(users)
      ensures email != "" && NormalizeEmail(email) in old(users) ==>
                var k := NormalizeEmail(email);
                var a := old(users)[k];
                if a.isVerified then reply == Failed(AlreadyVerified) && users == old(users)
                else if CooldownWait(a.lastOtpRequestAt, now).Some? then
                  reply == Failed(TooManyRequests(CooldownWait(a.lastOtpRequestAt, now).value)) && users == old(users)
                else
                  reply == Done(200, None) && users == old(users)[k := CodeRotated(a, IssueCode(draw), now)]
    {
      if email == "" {
        return Failed(MissingFields);
      }
      var key := NormalizeEmail(email);
      if key !in users {
        return Failed(UserNotFound);
      }
      var user := users[key];
      if user.isVerified {
        return Failed(AlreadyVerified);
      }
      var wait := CooldownWait(user.lastOtpRequestAt, now);
      if wait.Some? {
        return Failed(TooManyRequests(wait.value));
      }
      var otp := IssueCode(draw);
      user := CodeRotated(user, otp, now);
      Save(key, user);
      reply := Done(200, None);
    }

    /** `loginUser`: the same 401 for an unknown email and for a wrong password; whether the
        account is verified is not looked at. The store is only read. */
    method LoginUser(email: string, password: string, env: Env, res: Response) returns (reply: Reply)
      requires Valid()
      modifies res
      ensures var k := NormalizeEmail(email);
              reply == Failed(InvalidCredentials) <==>
                k !in users || !Compare(password, Selected(users[k], true).password.value)
      ensures var k := NormalizeEmail(email);
              k in users && Compare(password, users[k].password.value) ==>
                var t := SignToken(env, users[k].id, StringClaim(k));
                reply == TokenReply(t) && res.cookies == CookiesAfter(old(res.cookies), t, env)
      ensures reply == Failed(InvalidCredentials) ==> res.cookies == old(res.cookies)
    {
      var key := NormalizeEmail(email);
      if key !in users {
        return Failed(InvalidCredentials);
      }
      var user := Selected(users[key], true);
      var isPasswordValid := Compare(password, user.password.value);
      if !isPasswordValid {
        return Failed(InvalidCredentials);
      }
      var token := GenerateToken(env, user.id, StringClaim(user.email), res);
      reply := TokenReply(token);
    }

    /** `requestPasswordReset`: stores a new reset code valid for ten minutes, records the request
        time and closes the gate. No cooldown applies. */
    method RequestPasswordReset(email: string, draw: real, now: int) returns (reply: Reply)
      requires Valid()
      requires 0.0 <= draw < 1.0
      modifies this`users
      ensures Valid()
      ensures email == "" ==> reply == Failed(MissingFields) && users == old(users)
      ensures email != "" && NormalizeEmail(email) !in old(users) ==>
                reply == Failed(UserNotFound) && users == old(users)
      ensures email != "" && NormalizeEmail(email) in old(users) ==>
                var k := NormalizeEmail(email);
                reply == Done(200, None) && users == old(users)[k := ResetIssued(old(users)[k], IssueCode(draw), now)]
    {
      if email == "" {
        return Failed(MissingFields);
      }
      var key := NormalizeEmail(email);
      if key !in users {
        return Failed(UserNotFound);
      }
      var user := users[key];
      var otp := IssueCode(draw);
      user := ResetIssued(user, otp, now);
      Save(key, user);
      reply := Done(200, None);
    }

    /** `verifyResetCode`: on the right, unexpired code opens the gate and clears the code, so the
        same code cannot be used twice. */
    method VerifyResetCode(email: string, code: string, now: int) returns (reply: Reply)
      requires Valid()
      modifies this`users
      ensures Valid()
      ensures email == "" || code == "" ==> reply == Failed(MissingFields) && users == old(users)
      ensures email != "" && code != "" && NormalizeEmail(email) !in old(users) ==>
                reply == Failed(UserNotFound) && users == old(users)
      ensures email != "" && code != "" && NormalizeEmail(email) in old(users) ==>
                var k := NormalizeEmail(email);
                var a := old(users)[k];
                if ResetCodeCheck(a, code, now).Some? then
                  reply == Failed(ResetCodeCheck(a, code, now).value) && users == old(users)
                else
                  reply == Done(200, None) && users == old(users)[k := ResetVerified(a, now)]
    {
      if email == "" || code == "" {
        return Failed(MissingFields);
      }
      var key := NormalizeEmail(email);
      if key !in users {
        return Failed(UserNotFound);
      }
      var user := users[key];
      if user.resetCodeExpires.None? || now > user.resetCodeExpires.value {
        return Failed(ResetCodeExpired);
      }
      if user.resetCode != Some(code) {
        return Failed(InvalidResetCode);
      }
      user := ResetVerified(user, now);
      Save(key, user);
      reply := Done(200, None);
    }

    /** `resetPassword`: only through an open gate; replaces the password hash, closes the gate and
        clears the reset fields, then issues a session token for the account's id and email. */
    method ResetPassword(email: string, newPassword: string, salt: nat, now: int, env: Env, res: Response)
      returns (reply: Reply)
      requires Valid()
      modifies this`users, res
      ensures Valid()
      ensures email == "" || newPassword == "" ==>
                reply == Failed(MissingFields) && users == old(users) && res.cookies == old(res.cookies)
      ensures email != "" && newPassword != "" && NormalizeEmail(email) !in old(users) ==>
                reply == Failed(UserNotFound) && users == old(users) && res.cookies == old(res.cookies)
      ensures email != "" && newPassword != "" && NormalizeEmail(email) in old(users) ==>
                var k := NormalizeEmail(email);
                var a := old(users)[k];
                var t := SignToken(env, a.id, StringClaim(k));
                if !a.canResetPassword then
                  reply == Failed(ResetNotAuthorized) && users == old(users) && res.cookies == old(res.cookies)
                else
                  users == old(users)[k := PasswordReplaced(a, Hash(newPassword, salt), now)]
                  && reply == TokenReply(t) && res.cookies == CookiesAfter(old(res.cookies), t, env)
    {
      if email == "" || newPassword == "" {
        return Failed(MissingFields);
      }
      var key := NormalizeEmail(email);
      if key !in users {
        return Failed(UserNotFound);
      }
      var user := users[key];
      if !user.canResetPassword {
        return Failed(ResetNotAuthorized);
      }
      var hashedPassword := Hash(newPassword, salt);
      user := PasswordReplaced(user, hashedPassword, now);
      Save(key, user);
      var token := GenerateToken(env, user.id, StringClaim(user.email), res);
      reply := TokenReply(token);
    }

    /** `resetPassword` as written: the token call passes the response object in the email slot
        and no response, so it throws once the new password has been saved. The handler then
        replies 500 and sets no cookie, whatever the environment. */
    method ResetPasswordAsWritten(email: string, newPassword: string, salt: nat, now: int, env: Env, res: Response)
      returns (reply: Reply)
      requires Valid()
      modifies this`users
      ensures Valid()
      ensures res.cookies == old(res.cookies)
      ensures email == "" || newPassword == "" ==> reply == Failed(MissingFields) && users == old(users)
      ensures email != "" && newPassword != "" && NormalizeEmail(email) !in old(users) ==>
                reply == Failed(UserNotFound) && users == old(users)
      ensures email != "" && newPassword != "" && NormalizeEmail(email) in old(users) ==>
                var k := NormalizeEmail(email);
                var a := old(users)[k];
                if !a.canResetPassword then
                  reply == Failed(ResetNotAuthorized) && users == old(users)
                else
                  users == old(users)[k := PasswordReplaced(a, Hash(newPassword, salt), now)]
                  && reply == Failed(ServerError)
    {
      if email == "" || newPassword == "" {
        return Failed(MissingFields);
      }
      var key := NormalizeEmail(email);
      if key !in users {
        return Failed(UserNotFound);
      }
      var user := users[key];
      if !user.canResetPassword {
        return Failed(ResetNotAuthorized);
      }
      var hashedPassword := Hash(newPassword, salt);
      user := PasswordReplaced(user, hashedPassword, now);
      Save(key, user);
      var token := GenerateToken(env, user.id, ResponseObject, null);
      reply := TokenReply(token);
    }
  }

  /** `logoutUser`: overwrites the `token` cookie with an empty value that expires at once. */
  method LogoutUser(res: Response) returns (reply: Reply)
    modifies res
    ensures reply == Done(200, None)
    ensures res.cookies == old(res.cookies)[TokenCookie := Cookie(Empty, CookieOptions(false, None, false, 0))]
  {
    res.SetCookie(TokenCookie, Empty, CookieOptions(httpOnly := false, sameSite := None, secure := false, maxAge := 0));
    reply := Done(200, None);
  }

  /** `checkAuthStatus`: 401 unless the request guard attached an account. */
  function CheckAuthStatus(user: Option<Account>): (r: Result<Account, AuthError>)
    ensures r.Success? <==> user.Some?
    ensures r.Success? ==> r.value == user.value
    ensures r.Failure? ==> StatusOf(r.error) == 401
  {
    if user.None? then Failure(Unauthorized) else Success(user.value)
  }

  // ---------------------------------------------------------------------------------------------
  // Properties of the flows

  /** A verification code works once: after it verified the account, any further attempt is
      refused as already verified. */
  lemma VerifyEmailNoReplay(a: Account, code: string, now: int, later: int)
    ensures VerifyEmailCheck(EmailVerified(a, now), code, later) == Some(AlreadyVerified)
  {
  }

  /** A reset code works once: the success clears it together with its expiry, so a second
      attempt with any code is refused as expired. */
  lemma ResetCodeNoReplay(a: Account, code: string, now: int, later: int)
    ensures ResetCodeCheck(ResetVerified(a, now), code, later) == Some(ResetCodeExpired)
  {
  }

  /** Issuing a code is undone by nothing but the right code: within its ten minutes it is
      accepted, and every other code is refused as invalid. */
  lemma {:induction false} IssuedVerificationCodeAccepted(a: Account, draw: real, code: string, now: int, later: int)
    requires !a.isVerified && 0.0 <= draw < 1.0
    requires now <= later <= now + CodeLifetimeMs
    ensures var b := CodeRotated(a, IssueCode(draw), now);
            VerifyEmailCheck(b, code, later) == (if code == IssueCode(draw) then None else Some(InvalidVerificationCode))
  {
  }

  /** A resend supersedes the previous verification code: the old code is refused unless the new
      draw happens to give the same six digits. */
  lemma ResendSupersedes(a: Account, oldCode: string, draw: real, now: int, later: int)
    requires !a.isVerified && 0.0 <= draw < 1.0
    requires now <= later <= now + CodeLifetimeMs
    requires oldCode != IssueCode(draw)
    ensures VerifyEmailCheck(CodeRotated(a, IssueCode(draw), now), oldCode, later) == Some(InvalidVerificationCode)
  {
  }

  /** The reset code as the handlers intend it: stored, and accepted exactly while its ten
      minutes last. */
  lemma ResetCodeRoundTrip(a: Account, draw: real, now: int, later: int)
    requires 0.0 <= draw < 1.0
    ensures var code := IssueCode(draw);
            ResetCodeCheck(ResetIssued(a, code, now), code, later).None? <==> later <= now + CodeLifetimeMs
  {
  }

  /** A new reset request supersedes the old code and closes a gate that was open. */
  lemma NewResetRequestSupersedes(a: Account, oldCode: string, draw: real, now: int, later: int)
    requires 0.0 <= draw < 1.0 && oldCode != IssueCode(draw)
    requires later <= now + CodeLifetimeMs
    ensures var b := ResetIssued(a, IssueCode(draw), now);
            ResetCodeCheck(b, oldCode, later) == Some(InvalidResetCode) && !b.canResetPassword
  {
  }

  /** Right after a resend, every further resend within the minute is refused with a wait of
      1 to 60 seconds. */
  lemma ResendThrottled(a: Account, code: string, now: int, later: int)
    requires !a.isVerified && IsSixDigitCode(code)
    requires now <= later < now + ResendCooldownMs
    ensures var w := CooldownWait(CodeRotated(a, code, now).lastOtpRequestAt, later);
            w.Some? && 1 <= w.value <= 60
  {
  }

  /** After a password reset the account accepts the new password and no other. */
  lemma {:induction false} LoginAfterReset(a: Account, newPassword: string, salt: nat, now: int, attempt: string)
    ensures Compare(attempt, PasswordReplaced(a, Hash(newPassword, salt), now).password.value) <==> attempt == newPassword
  {
    CompareHash(attempt, newPassword, salt);
  }

  // ---------------------------------------------------------------------------------------------
  // Behaviour of the code as written (see Findings in the README)

  /** How `save` stores a document when the schema declares no `resetCode` path: the value
      assigned to that field is never written, and every other field is. */
  function StrictModeSave(a: Account): (b: Account)
    ensures b.resetCode.None?
    ensures b.(resetCode := a.resetCode) == a
  {
    a.(resetCode := None)
  }

  /** As written, the reset code never reaches the database, so `verifyResetCode` refuses every
      code, the mailed one included: within the ten minutes as invalid, after them as expired. */
  lemma StrictModeRejectsEveryResetCode(a: Account, draw: real, now: int, later: int, code: string)
    requires 0.0 <= draw < 1.0
    ensures var saved := StrictModeSave(ResetIssued(a, IssueCode(draw), now));
            ResetCodeCheck(saved, code, later) ==
              Some(if later > now + CodeLifetimeMs then ResetCodeExpired else InvalidResetCode)
  {
  }

  // ---------------------------------------------------------------------------------------------
  // End-to-end flows on one account

  /** Signup, then verification: a wrong code is refused, the mailed code is accepted within its
      ten minutes, and once the account is verified the same code is refused. */
  lemma SignupThenVerify(id: nat, email: string, fullname: FullName, hashed: Hashed, draw: real,
                         wrong: string, now: int, later: int, last: int)
    requires 0.0 <= draw < 1.0 && wrong != IssueCode(draw)
    requires now <= later <= now + CodeLifetimeMs
    ensures var a := SignupAccount(id, email, fullname, hashed, IssueCode(draw), now);
            && VerifyEmailCheck(a, wrong, later) == Some(InvalidVerificationCode)
            && VerifyEmailCheck(a, IssueCode(draw), later) == None
            && VerifyEmailCheck(EmailVerified(a, later), IssueCode(draw), last) == Some(AlreadyVerified)
  {
  }

  /** The three reset steps on one account: the request issues a code, the mailed code opens the
      gate, the new password closes it; afterwards the code is refused and only the new password
      is accepted. */
  lemma {:induction false} ResetThenLogin(a: Account, draw: real, newPassword: string, salt: nat, now: int,
                                          later: int, attempt: string)
    requires 0.0 <= draw < 1.0
    requires now <= later <= now + CodeLifetimeMs
    ensures var b := ResetIssued(a, IssueCode(draw), now);
            var c := ResetVerified(b, later);
            var d := PasswordReplaced(c, Hash(newPassword, salt), later);
            && Gate(b) == CodeRequested && Gate(c) == CodeVerified && Gate(d) == Idle
            && ResetCodeCheck(b, IssueCode(draw), later).None?
            && ResetCodeCheck(d, IssueCode(draw), later) == Some(ResetCodeExpired)
            && (Compare(attempt, d.password.value) <==> attempt == newPassword)
  {
    CompareHash(attempt, newPassword, salt);
  }
}
