/**
 * backend/app/utils.py: the decision structure of the `get_current_user` dependency and of
 * the dependency that `require_role(role)` builds. JWT verification (`jwt.decode`) and the
 * user lookup (`get_user_by_email`) are oracles.
 */
module Auth {
  import opened Wrappers

  /** A row of the users table; `role` is what `current_user.get("role")` yields. */
  datatype User = User(email: string, role: Option<string>)

  /** The decoded JWT payload; `sub` is `payload.get("sub")`. */
  datatype Claims = Claims(sub: Option<string>)

  /** The dependency's outcome: the user, or the HTTP status of the raised `HTTPException`. */
  datatype AuthResult = Authorized(user: User) | Rejected(status: int)

  const Unauthorized: int := 401
  const Forbidden: int := 403
  const AdminRole: string := "admin"

  /** `jwt.decode` with the configured secret and algorithm; `None` where it raises `JWTError`. */
  type Decoder = string -> Option<Claims>

  /** `get_user_by_email`; `None` when no row matches. */
  type UserLookup = string -> Option<User>

  /**
   * `get_current_user`, behind `OAuth2PasswordBearer` (which rejects a request without a
   * bearer token): 401 when there is no token, the token does not decode, it has no `sub`,
   * or no user has that email; otherwise the looked-up user.
   */
  function CurrentUser(token: Option<string>, decode: Decoder, lookup: UserLookup): (r: AuthResult)
    ensures r.Rejected? ==> r.status == Unauthorized
    ensures r.Authorized? <==>
      && token.Some?
      && decode(token.value).Some?
      && decode(token.value).value.sub.Some?
      && lookup(decode(token.value).value.sub.value).Some?
    ensures r.Authorized? ==> r.user == lookup(decode(token.value).value.sub.value).value
  {
    if token.None? then Rejected(Unauthorized)
    else
      match decode(token.value)
      case None => Rejected(Unauthorized)
      case Some(claims) =>
        if claims.sub.None? then Rejected(Unauthorized)
        else
          match lookup(claims.sub.value)
          case None => Rejected(Unauthorized)
          case Some(user) => Authorized(user)
  }

  /**
   * `_role_dep` for `require_role(role)`: an authentication failure passes through unchanged;
   * an authenticated user passes exactly when their role is the required one or `"admin"`,
   * and is then returned unchanged; any other role, a missing one included, gets 403.
   */
  function RequireRole(role: string, current: AuthResult): (r: AuthResult)
    ensures current.Rejected? ==> r == current
    ensures current.Authorized? ==>
      (r.Authorized? <==> current.user.role == Some(role) || current.user.role == Some(AdminRole))
    ensures r.Authorized? ==> r == current
    ensures current.Authorized? && r.Rejected? ==> r.status == Forbidden
  {
    match current
    case Rejected(_) => current
    case Authorized(user) =>
      if user.role !in [Some(role), Some(AdminRole)] then Rejected(Forbidden) else current
  }

  /** An admin passes every role gate. */
  lemma AdminPassesEveryGate(role: string, user: User)
    requires user.role == Some(AdminRole)
    ensures RequireRole(role, Authorized(user)) == Authorized(user)
  {
  }

  /**
   * The whole gate on a request: 401 for every authentication failure, before any role check;
   * 403 for an authenticated user without the role; otherwise the user from the store.
   */
  lemma GateOutcome(role: string, token: Option<string>, decode: Decoder, lookup: UserLookup)
    ensures var current := CurrentUser(token, decode, lookup);
      var r := RequireRole(role, current);
      && (current.Rejected? ==> r == Rejected(Unauthorized))
      && (current.Authorized? && current.user.role != Some(role) && current.user.role != Some(AdminRole) ==>
            r == Rejected(Forbidden))
      && (r.Authorized? ==> r.user == lookup(decode(token.value).value.sub.value).value)
  {
  }
}
