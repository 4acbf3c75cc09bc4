/** The authorization middleware whose behaviour middleware/auth.test.js
    asserts: `authenticateJWT`, which fills `res.locals.user` from a bearer
    token, and three gates that let a request continue or stop it with an
    `UnauthorizedError`. middleware/auth.js itself is not part of this
    model; the gates below state the contract its tests assert. */
module Auth {
  import opened Wrappers
  import opened ExpressError

  /** The object found in `res.locals.user`: a token payload, or whatever a
      test puts there, so every field may be missing. */
  datatype Principal = Principal(username: Option<string>, isAdmin: Option<bool>, issuedAt: Option<int>)

  /** What a middleware does with `next`: call it without an error, or stop
      the request with one (the tests observe the latter as a throw). */
  datatype Decision = Continue | Reject(error: Error)

  /** A present, truthy `username`. */
  predicate HasUsername(user: Option<Principal>) {
    user.Some? && user.value.username.Some? && user.value.username.value != ""
  }

  /** `isAdmin === true`. */
  predicate IsAdmin(user: Option<Principal>) {
    user.Some? && user.value.isAdmin == Some(true)
  }

  /** `user.username === params.username`, never true without a user or a
      username. */
  predicate IsUser(user: Option<Principal>, routeUsername: string) {
    user.Some? && user.value.username == Some(routeUsername)
  }

  /** ensureLoggedIn: a principal with a username gets through, and only
      such a principal; the only error it raises is `UnauthorizedError`. */
  function EnsureLoggedIn(user: Option<Principal>): (d: Decision)
    ensures d == Continue || d == Reject(UnauthorizedError)
    ensures d == Continue <==> user.Some? && user.value.username.Some? && user.value.username.value != ""
  {
    if HasUsername(user) then Continue else Reject(UnauthorizedError)
  }

  /** ensureAdmin: a principal whose `isAdmin` is true gets through, and
      only such a principal. */
  function EnsureAdmin(user: Option<Principal>): (d: Decision)
    ensures d == Continue || d == Reject(UnauthorizedError)
    ensures d == Continue <==> user.Some? && user.value.isAdmin == Some(true)
  {
    if IsAdmin(user) then Continue else Reject(UnauthorizedError)
  }

  /** ensureAdminOrCorrectUser: an admin, or the user the route names. */
  function EnsureAdminOrCorrectUser(user: Option<Principal>, routeUsername: string): (d: Decision)
    ensures d == Continue || d == Reject(UnauthorizedError)
    ensures d == Continue <==>
      user.Some? && (user.value.isAdmin == Some(true) || user.value.username == Some(routeUsername))
  {
    if IsAdmin(user) || IsUser(user, routeUsername) then Continue else Reject(UnauthorizedError)
  }

  /** Fail closed: a request without a principal passes no gate. */
  lemma AnonymousPassesNoGate(routeUsername: string)
    ensures EnsureLoggedIn(None) == Reject(UnauthorizedError)
    ensures EnsureAdmin(None) == Reject(UnauthorizedError)
    ensures EnsureAdminOrCorrectUser(None, routeUsername) == Reject(UnauthorizedError)
  {
  }

  /** The admin-or-user gate decided case by case: being an admin or being
      the named user each suffices, and a non-admin stranger is refused. */
  lemma AdminOrCorrectUserCases(p: Principal, routeUsername: string)
    ensures p.isAdmin == Some(true) ==> EnsureAdminOrCorrectUser(Some(p), routeUsername) == Continue
    ensures p.username == Some(routeUsername) ==> EnsureAdminOrCorrectUser(Some(p), routeUsername) == Continue
    ensures p.isAdmin != Some(true) && p.username != Some(routeUsername) ==>
      EnsureAdminOrCorrectUser(Some(p), routeUsername) == Reject(UnauthorizedError)
  {
  }

  /** Whoever passes the admin gate passes the admin-or-user gate on every
      route, whatever username the route names. */
  lemma AdminPassesOwnerGate(user: Option<Principal>, routeUsername: string)
    requires EnsureAdmin(user) == Continue
    ensures EnsureAdminOrCorrectUser(user, routeUsername) == Continue
  {
  }

  /** auth.test.js, the `ensureLoggedIn` cases. */
  lemma EnsureLoggedInExamples()
    ensures EnsureLoggedIn(Some(Principal(Some("test"), None, None))) == Continue
    ensures EnsureLoggedIn(None) == Reject(UnauthorizedError)
    ensures EnsureLoggedIn(Some(Principal(None, None, None))) == Reject(UnauthorizedError)
  {
  }

  /** auth.test.js, the `ensureAdmin` cases. */
  lemma EnsureAdminExamples()
    ensures EnsureAdmin(Some(Principal(Some("testAdmin"), Some(true), None))) == Continue
    ensures EnsureAdmin(Some(Principal(Some("test"), Some(false), None))) == Reject(UnauthorizedError)
    ensures EnsureAdmin(Some(Principal(None, None, None))) == Reject(UnauthorizedError)
  {
  }

  /** auth.test.js, the `ensureAdminOrCorrectUser` cases, route user "test". */
  lemma EnsureAdminOrCorrectUserExamples()
    ensures EnsureAdminOrCorrectUser(Some(Principal(Some("testAdmin"), Some(true), None)), "test") == Continue
    ensures EnsureAdminOrCorrectUser(Some(Principal(Some("test"), Some(false), None)), "test") == Continue
    ensures EnsureAdminOrCorrectUser(Some(Principal(Some("test2"), Some(false), None)), "test")
         == Reject(UnauthorizedError)
    ensures EnsureAdminOrCorrectUser(None, "test") == Reject(UnauthorizedError)
  {
  }

  // ---------------------------------------------------------------------
  // authenticateJWT

  /** `res.locals`, of which the middleware touches only `user`. */
  class Locals {
    var user: Option<Principal>

    /** `res.locals = {}`. */
    constructor ()
      ensures user == None
    {
      user := None;
    }
  }

  const BearerPrefix: string := "Bearer "

  /** The credential of an authorization header in the bearer scheme:
      present exactly when the header starts with the prefix, and then the
      header is the prefix followed by it. */
  function BearerToken(header: string): (token: Option<string>)
    ensures token.Some? <==> BearerPrefix <= header
    ensures token.Some? ==> header == BearerPrefix + token.value
  {
    if |header| >= |BearerPrefix| && header[..|BearerPrefix|] == BearerPrefix
    then Some(header[|BearerPrefix|..])
    else None
  }

  /** The principal a request's authorization header establishes. `verify`
      stands for the token library's signature and expiry check with the
      server's secret: it yields the payload or nothing. */
  function Identify(authorization: Option<string>, verify: string -> Option<Principal>): (identity: Option<Principal>)
    ensures authorization.None? ==> identity.None?
    ensures identity.Some? ==>
      authorization.Some? && BearerToken(authorization.value).Some? &&
      verify(BearerToken(authorization.value).value) == identity
  {
    match authorization
    case None => None
    case Some(header) =>
      match BearerToken(header)
      case None => None
      case Some(token) => verify(token)
  }

  /** `locals.user` after authentication, given what it was before: the
      verified identity when there is one, the previous user otherwise, so
      authentication never signs a user out. */
  function UserAfterAuthentication(previous: Option<Principal>, authorization: Option<string>,
                                   verify: string -> Option<Principal>): (user: Option<Principal>)
    ensures user == previous || user == Identify(authorization, verify)
    ensures Identify(authorization, verify).Some? ==> user == Identify(authorization, verify)
    ensures previous.Some? ==> user.Some?
  {
    var identity := Identify(authorization, verify);
    if identity.Some? then identity else previous
  }

  /** authenticateJWT: never stops the request; sets `locals.user` to the
      payload when the token verifies, and leaves `locals` as it was when
      the header is missing, not a bearer credential, or refused. */
  method AuthenticateJWT(authorization: Option<string>, verify: string -> Option<Principal>, locals: Locals)
    returns (d: Decision)
    modifies locals
    ensures d == Continue
    ensures locals.user == UserAfterAuthentication(old(locals.user), authorization, verify)
  {
    var identity := Identify(authorization, verify);
    if identity.Some? {
      locals.user := identity;
    }
    return Continue;
  }

  /** A bearer header identifies exactly the principal its token verifies
      to; no header identifies nobody. */
  lemma IdentifyBearer(token: string, verify: string -> Option<Principal>)
    ensures Identify(Some(BearerPrefix + token), verify) == verify(token)
    ensures Identify(None, verify) == None
  {
    var header := BearerPrefix + token;
    assert header[..|BearerPrefix|] == BearerPrefix;
    assert header[|BearerPrefix|..] == token;
  }

  /** Authentication fails closed: a fresh request whose identity fails to
      establish stays anonymous and is refused by every gate that runs next. */
  lemma UnidentifiedRequestRefused(authorization: Option<string>, verify: string -> Option<Principal>, routeUsername: string)
    requires Identify(authorization, verify) == None
    ensures var user := UserAfterAuthentication(None, authorization, verify);
      && user == None
      && EnsureLoggedIn(user) == Reject(UnauthorizedError)
      && EnsureAdmin(user) == Reject(UnauthorizedError)
      && EnsureAdminOrCorrectUser(user, routeUsername) == Reject(UnauthorizedError)
  {
  }

  /** The three `authenticateJWT` cases of auth.test.js, run against a
      verifier that accepts `testJwt` and refuses `badJwt`. */
  method AuthenticateJWTCases(verify: string -> Option<Principal>, testJwt: string, badJwt: string, payload: Principal)
    returns (withToken: Option<Principal>, withoutHeader: Option<Principal>, withBadToken: Option<Principal>)
    requires verify(testJwt) == Some(payload)
    requires verify(badJwt) == None
    ensures withToken == Some(payload) && withoutHeader == None && withBadToken == None
  {
    IdentifyBearer(testJwt, verify);
    IdentifyBearer(badJwt, verify);

    var locals := new Locals();
    var d := AuthenticateJWT(Some(BearerPrefix + testJwt), verify, locals);
    assert d == Continue;
    withToken := locals.user;

    locals := new Locals();
    d := AuthenticateJWT(None, verify, locals);
    assert d == Continue;
    withoutHeader := locals.user;

    locals := new Locals();
    d := AuthenticateJWT(Some(BearerPrefix + badJwt), verify, locals);
    assert d == Continue;
    withBadToken := locals.user;
  }
}
