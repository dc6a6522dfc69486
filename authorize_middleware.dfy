/**
 * Role-based access (server/src/middleware/authorizeMiddleware.js): a route
 * lists the roles it admits and the middleware lets a request through, or
 * answers 401 or 403.
 */
module Authorization {
  import opened Wrappers

  /** The authenticated user the `authenticate` middleware attached, if any. */
  datatype Principal = Principal(id: string, role: string)

  datatype Decision =
    | Unauthenticated   // 401 "Authentication required. Please log in."
    | Forbidden         // 403 "Access denied. ..."
    | Next              // `next()`
  {
    function Status(): Option<int> {
      match this
      case Unauthenticated => Some(401)
      case Forbidden => Some(403)
      case Next => None
    }
  }

  /** `authorize(...allowedRoles)` applied to a request. */
  function Authorize(allowedRoles: seq<string>, user: Option<Principal>): (r: Decision)
    ensures r == Unauthenticated <==> user.None?
    ensures r == Forbidden <==> user.Some? && user.value.role !in allowedRoles
    ensures r == Next <==> user.Some? && user.value.role in allowedRoles
  {
    if user.None? then Unauthenticated
    else if user.value.role !in allowedRoles then Forbidden
    else Next
  }

  /** Any one of the listed roles is enough. */
  lemma AnyListedRoleSuffices(allowedRoles: seq<string>, i: nat, user: Principal)
    requires i < |allowedRoles| && user.role == allowedRoles[i]
    ensures Authorize(allowedRoles, Some(user)) == Next
  {
  }

  /** Listing more roles never turns away a request that was let through. */
  lemma MoreRolesAdmitMore(allowedRoles: seq<string>, more: seq<string>, user: Option<Principal>)
    ensures Authorize(allowedRoles, user) == Next ==> Authorize(allowedRoles + more, user) == Next
    ensures Authorize(allowedRoles + more, user) == Forbidden ==> Authorize(allowedRoles, user) == Forbidden
  {
  }
}
