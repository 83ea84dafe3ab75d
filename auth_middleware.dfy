/** `protectedRoute`: the guard in front of the authenticated routes. It reads the `token` cookie,
    verifies it, loads the account named by the token's `userId` and attaches it to the request
    before passing control on. `jwt.verify` is a parameter: for each token string it either
    decodes a user id, yields a falsy value, or throws (bad signature, expiry, malformed token). */
module AuthMiddleware {
  import opened Wrappers
  import opened UserModel
  import opened AuthController

  datatype VerifyOutcome = Decoded(userId: nat) | Falsy | Throws

  /** The guard either calls `next()` or answers with a status. */
  datatype GuardReply = Next | Respond(status: nat)

  /** A cookie value is truthy when present and not the empty string. */
  predicate HasToken(cookie: Option<string>) {
    cookie.Some? && cookie.value != ""
  }

  /** The request as the guard sees and changes it. */
  class Request {
    /** `req.cookies.token`. */
    const tokenCookie: Option<string>
    /** `req.user`, set by the guard. */
    var user: Option<Account>
    /** How many times `next()` was called for this request. */
    var nextCalls: nat

    constructor (tokenCookie: Option<string>)
      ensures this.tokenCookie == tokenCookie && user.None? && nextCalls == 0
    {
      this.tokenCookie := tokenCookie;
      user := None;
      nextCalls := 0;
    }
  }

  /** The ids of the stored accounts. */
  function AccountIds(users: map<string, Account>): (ids: set<nat>) {
    set k | k in users :: users[k].id
  }

  /** The status the guard answers with, or `Next`, as a function of the cookie, of what verifying
      it gives and of the stored ids. Verifying that throws is caught by the handler's `catch` and
      becomes a 500. */
  function GuardOutcome(cookie: Option<string>, verify: string -> VerifyOutcome, ids: set<nat>): (g: GuardReply)
    ensures g == Respond(401) <==> !HasToken(cookie) || verify(cookie.value) == Falsy
    ensures g == Respond(500) <==> HasToken(cookie) && verify(cookie.value) == Throws
    ensures g == Respond(404) <==> HasToken(cookie) && verify(cookie.value).Decoded? && verify(cookie.value).userId !in ids
    ensures g == Next <==> HasToken(cookie) && verify(cookie.value).Decoded? && verify(cookie.value).userId in ids
  {
    if !HasToken(cookie) then Respond(401)
    else match verify(cookie.value)
      case Throws => Respond(500)
      case Falsy => Respond(401)
      case Decoded(id) => if id in ids then Next else Respond(404)
  }

  /** `protectedRoute(req, res, next)`. On `Next` the request carries the account, without its
      password, and `next()` was called once; on every other reply the request is unchanged. */
  method ProtectedRoute(req: Request, store: UserStore, verify: string -> VerifyOutcome) returns (reply: GuardReply)
    requires store.Valid()
    modifies req`user, req`nextCalls
    ensures reply == GuardOutcome(req.tokenCookie, verify, AccountIds(store.users))
    ensures reply == Next ==>
              && req.user == store.FindById(verify(req.tokenCookie.value).userId)
              && req.user.Some? && req.user.value.password.None?
              && req.nextCalls == old(req.nextCalls) + 1
    ensures reply != Next ==> req.user == old(req.user) && req.nextCalls == old(req.nextCalls)
  {
    var token := req.tokenCookie;
    if token.None? || token.value == "" {
      return Respond(401);
    }
    var decoded := verify(token.value);
    if decoded.Throws? {
      return Respond(500);
    }
    if decoded.Falsy? {
      return Respond(401);
    }
    var user := store.FindById(decoded.userId);
    assert user.Some? <==> decoded.userId in AccountIds(store.users);
    if user.None? {
      return Respond(404);
    }
    req.user := user;
    req.nextCalls := req.nextCalls + 1;
    reply := Next;
  }

  /** A request that passed the guard is authorised for `checkAuthStatus`, which returns the very
      account the guard attached. */
  lemma GuardedRequestIsAuthorised(user: Option<Account>)
    requires user.Some?
    ensures CheckAuthStatus(user) == Success(user.value)
  {
  }
}
