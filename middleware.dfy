/**
 * Authentication and role gates (internal/api/middleware/middleware.go):
 * where the request's token is taken from, what AuthMiddleware puts into
 * the request context, and the five role gates that read the role back.
 */
module Middleware {
  import opened Wrappers
  import opened Clock
  import opened Errors
  import opened Jwt
  import opened Roles
  import opened Uuid
  import opened Users
  import opened UserDto
  import opened Repository
  import opened AuthService

  const BearerSchema: string := "Bearer "

  /**
   * The token AuthMiddleware works with: a non-empty access_token cookie
   * wins; otherwise an Authorization header starting with "Bearer ", the
   * prefix cut off; an empty result means no token.
   */
  function TokenSource(cookie: Option<string>, header: string): (r: Option<string>)
    ensures r.Some? ==> r.value != ""
    ensures cookie.Some? && cookie.value != "" ==> r == cookie
    ensures (cookie.None? || cookie.value == "") ==>
      r == (if BearerSchema <= header && |header| > |BearerSchema| then Some(header[|BearerSchema|..]) else None)
  {
    if cookie.Some? && cookie.value != "" then cookie
    else if BearerSchema <= header && header[|BearerSchema|..] != "" then Some(header[|BearerSchema|..])
    else None
  }

  /** A bearer header carries exactly the token written after the prefix, when there is no cookie. */
  lemma BearerRoundTrip(token: string)
    requires token != ""
    ensures TokenSource(None, BearerSchema + token) == Some(token)
    ensures TokenSource(Some(""), BearerSchema + token) == Some(token)
  {
    assert (BearerSchema + token)[|BearerSchema|..] == token;
  }

  /** A cookie token hides whatever the header says. */
  lemma CookieHidesHeader(cookie: string, h1: string, h2: string)
    requires cookie != ""
    ensures TokenSource(Some(cookie), h1) == TokenSource(Some(cookie), h2) == Some(cookie)
  {
  }

  /** What AuthMiddleware does with a request. */
  datatype AuthOutcome =
    | TokenMissing                    // 401 AUTH_TOKEN_MISSING
    | TokenInvalid(details: string)   // 401 AUTH_TOKEN_INVALID
    | UserUnknown(details: string)    // 401 AUTH_USER_NOT_FOUND
    | Authenticated(user: UserResponse)

  /**
   * AuthMiddleware: the token from TokenSource, VerifyToken on it, then
   * the user the token names, read from the table. On success the id, the
   * user and the user's stored role go into the context.
   */
  function Authenticate(rows: seq<UserRecord>, c: Codec, secret: string, cookie: Option<string>, header: string,
                        now: Time, fault: Option<Error>): (o: AuthOutcome)
    ensures TokenSource(cookie, header).None? <==> o == TokenMissing
    ensures o.TokenInvalid? <==> TokenSource(cookie, header).Some? && VerifyToken(c, secret, TokenSource(cookie, header).value, now).Err?
    ensures o.TokenInvalid? ==> o.details == Describe(VerifyToken(c, secret, TokenSource(cookie, header).value, now).error)
    ensures TokenSource(cookie, header).Some? && VerifyToken(c, secret, TokenSource(cookie, header).value, now).Ok? ==>
      var found := UserFromToken(rows, Some(VerifyToken(c, secret, TokenSource(cookie, header).value, now).value), fault);
      (found.Err? ==> o == UserUnknown(Describe(found.error))) && (found.Ok? ==> o == Authenticated(found.value))
  {
    match TokenSource(cookie, header)
    case None => TokenMissing
    case Some(t) =>
      match VerifyToken(c, secret, t, now)
      case Err(e) => TokenInvalid(Describe(e))
      case Ok(token) =>
        match UserFromToken(rows, Some(token), fault)
        case Err(e) => UserUnknown(Describe(e))
        case Ok(u) => Authenticated(u)
  }

  /** The role in the context after AuthMiddleware: set only when a user was found. */
  function ContextRole(o: AuthOutcome): (r: Option<string>)
    ensures r.Some? <==> o.Authenticated?
  {
    if o.Authenticated? then Some(o.user.role) else None
  }

  /** The role the gates see is the role stored for the user, never a claim of the token. */
  lemma ContextRoleIsStored(rows: seq<UserRecord>, c: Codec, secret: string, cookie: Option<string>, header: string,
                             now: Time, fault: Option<Error>)
    requires Authenticate(rows, c, secret, cookie, header, now, fault).Authenticated?
    ensures exists row :: row in rows && Live(row) && ContextRole(Authenticate(rows, c, secret, cookie, header, now, fault)) == Some(row.role)
  {
    var o := Authenticate(rows, c, secret, cookie, header, now, fault);
    var token := VerifyToken(c, secret, TokenSource(cookie, header).value, now).value;
    var row :| row in rows && Live(row) && UserFromToken(rows, Some(token), fault).value == FromModel(EmptyResponse, row)
               && Uuid.Parse(StrClaim(token.claims, "user_id").value) == Some(row.id);
    assert ContextRole(o) == Some(row.role);
  }

  /** What a role gate does: let the request through, or stop it. */
  datatype GateResult =
    | Pass
    | RoleMissing                     // 401 AUTH_ROLE_MISSING
    | Insufficient(userRole: string)  // 403 AUTH_INSUFFICIENT_PRIVILEGES

  /** AdminRoleMiddleware: exactly "admin". */
  function AdminGate(role: Option<string>): (g: GateResult)
    ensures role.None? <==> g == RoleMissing
    ensures g == Pass <==> role == Some(Roles.Admin)
    ensures g.Insufficient? ==> g.userRole == role.value
  {
    match role
    case None => RoleMissing
    case Some(r) => if r != "admin" then Insufficient(r) else Pass
  }

  /** SuperUserRoleMiddleware: exactly "superuser". */
  function SuperUserGate(role: Option<string>): (g: GateResult)
    ensures role.None? <==> g == RoleMissing
    ensures g == Pass <==> role == Some(Roles.SuperUser)
    ensures g.Insufficient? ==> g.userRole == role.value
  {
    match role
    case None => RoleMissing
    case Some(r) => if r != "superuser" then Insufficient(r) else Pass
  }

  /** ManagerRoleMiddleware: "manager" or one of the two roles above it. */
  function ManagerGate(role: Option<string>): (g: GateResult)
    ensures role.None? <==> g == RoleMissing
    ensures g == Pass <==> role.Some? && role.value in {Roles.Manager, Roles.Admin, Roles.SuperUser}
    ensures g.Insufficient? ==> g.userRole == role.value
  {
    match role
    case None => RoleMissing
    case Some(r) => if r != "manager" && r != "admin" && r != "superuser" then Insufficient(r) else Pass
  }

  /** RequireRoleMiddleware: the role must equal one of the listed roles, compared case for case. */
  method RequireRoleGate(roles: seq<string>, role: Option<string>) returns (g: GateResult)
    ensures role.None? <==> g == RoleMissing
    ensures g == Pass <==> role.Some? && role.value in roles
    ensures g.Insufficient? ==> g.userRole == role.value
  {
    if role.None? {
      return RoleMissing;
    }
    var userRole := role.value;
    for k := 0 to |roles|
      invariant forall i :: 0 <= i < k ==> roles[i] != userRole
    {
      if userRole == roles[k] {
        return Pass;
      }
    }
    g := Insufficient(userRole);
  }

  /** The level table of RequireRoleLevelMiddleware, written out in the middleware itself. */
  function LevelOf(roleStr: string): (l: int)
    ensures l == Roles.Level(roleStr)
  {
    match roleStr
    case "superuser" => 4
    case "admin" => 3
    case "manager" => 2
    case "user" => 1
    case _ => 0
  }

  /** RequireRoleLevelMiddleware: the role's level must be at least `minLevel`. */
  function LevelGate(minLevel: int, role: Option<string>): (g: GateResult)
    ensures role.None? <==> g == RoleMissing
    ensures g == Pass <==> role.Some? && HasLevel(role.value, minLevel)
    ensures g.Insufficient? ==> g.userRole == role.value
  {
    match role
    case None => RoleMissing
    case Some(r) => if LevelOf(r) < minLevel then Insufficient(r) else Pass
  }

  /** The gate the router calls adminMiddleware is the level gate at 2. */
  const AdminRouteLevel: int := 2

  /** The manager gate and the level gate at 2 decide alike on every role. */
  lemma ManagerGateIsLevelTwo(role: Option<string>)
    ensures ManagerGate(role) == LevelGate(2, role)
  {
  }

  /** The admin gate turns the superuser away; the routes' admin gate lets a manager in. */
  lemma AdminGatesDisagree()
    ensures AdminGate(Some(Roles.SuperUser)) == Insufficient(Roles.SuperUser)
    ensures SuperUserGate(Some(Roles.Admin)) == Insufficient(Roles.Admin)
    ensures LevelGate(AdminRouteLevel, Some(Roles.Manager)) == Pass
    ensures LevelGate(AdminRouteLevel, Some(Roles.User)) == Insufficient(Roles.User)
  {
  }

  /** A level of 0 or less admits any role at all, even an unknown or empty one. */
  lemma LevelGateNonPositiveAdmitsAll(minLevel: int, r: string)
    requires minLevel <= 0
    ensures LevelGate(minLevel, Some(r)) == Pass
  {
  }

  /** Raising the level never lets more roles through. */
  lemma LevelGateMonotone(lower: int, higher: int, role: Option<string>)
    requires lower <= higher && LevelGate(higher, role) == Pass
    ensures LevelGate(lower, role) == Pass
  {
    HasLevelDownwardClosed(role.value, lower, higher);
  }
}
