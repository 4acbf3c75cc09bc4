/** Which gate guards each /users route, as routes/users.test.js exercises
    them, and the order in which a request meets the gate and its handler. */
module UserRoutes {
  import opened Wrappers
  import opened ExpressError
  import opened Auth

  datatype Route =
    | CreateUser                   // POST /users
    | ListUsers                    // GET /users
    | GetUser(username: string)    // GET /users/:username
    | PatchUser(username: string)  // PATCH /users/:username
    | DeleteUser(username: string) // DELETE /users/:username

  /** The gate in front of a route: admins only on the collection, admins
      or the named user on a user record; an admin always passes, and a
      refusal is always `UnauthorizedError`. */
  function Gate(route: Route, user: Option<Principal>): (d: Decision)
    ensures d == Continue || d == Reject(UnauthorizedError)
    ensures IsAdmin(user) ==> d == Continue
    ensures route.CreateUser? || route.ListUsers? ==> (d == Continue <==> IsAdmin(user))
    ensures !(route.CreateUser? || route.ListUsers?) ==>
      (d == Continue <==> IsAdmin(user) || IsUser(user, route.username))
  {
    match route
    case CreateUser => EnsureAdmin(user)
    case ListUsers => EnsureAdmin(user)
    case GetUser(u) => EnsureAdminOrCorrectUser(user, u)
    case PatchUser(u) => EnsureAdminOrCorrectUser(user, u)
    case DeleteUser(u) => EnsureAdminOrCorrectUser(user, u)
  }

  /** The response to a request: the gate decides first; only a request it
      lets through reaches the handler, whose outcome (rows, a validation
      error, a not-found error) is `handler`. */
  function Respond<T>(route: Route, user: Option<Principal>, handler: Result<T, Error>): (r: Result<T, Error>)
    ensures Gate(route, user) == Continue ==> r == handler
    ensures Gate(route, user) != Continue ==> r == Failure(UnauthorizedError)
  {
    match Gate(route, user)
    case Continue => handler
    case Reject(e) => Failure(e)
  }

  /** 401 comes before 400 and 404: a request the gate refuses is
      unauthorized whatever its handler would have answered. */
  lemma UnauthorizedBeforeHandler<T>(route: Route, user: Option<Principal>, h1: Result<T, Error>, h2: Result<T, Error>)
    requires Gate(route, user) != Continue
    ensures Respond(route, user, h1) == Respond(route, user, h2) == Failure(UnauthorizedError)
  {
  }

  /** An anonymous request reaches no handler. */
  lemma AnonymousRefusedEverywhere<T>(route: Route, handler: Result<T, Error>)
    ensures Respond(route, None, handler) == Failure(UnauthorizedError)
  {
  }

  /** An admin reaches every handler. */
  lemma AdminReachesEveryHandler<T>(route: Route, user: Option<Principal>, handler: Result<T, Error>)
    requires IsAdmin(user)
    ensures Respond(route, user, handler) == handler
  {
  }

  /** A non-admin reaches the handlers of their own user record only. */
  lemma NonAdminReachesOwnRecordOnly<T>(route: Route, p: Principal, handler: Result<T, Error>)
    requires p.isAdmin != Some(true)
    ensures Respond(route, Some(p), handler) ==
      match route
      case CreateUser => Failure(UnauthorizedError)
      case ListUsers => Failure(UnauthorizedError)
      case GetUser(u) => if p.username == Some(u) then handler else Failure(UnauthorizedError)
      case PatchUser(u) => if p.username == Some(u) then handler else Failure(UnauthorizedError)
      case DeleteUser(u) => if p.username == Some(u) then handler else Failure(UnauthorizedError)
  {
  }
}
