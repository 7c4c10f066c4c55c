/**
 * The authentication gate and the role gate of backend/internal/auth/middleware.go.
 * A middleware either short-circuits with a status code or forwards the request,
 * possibly with an extended context, to the next handler.
 */
module Auth {
  import opened Wrappers
  import Http

  /** The request-scoped values under the `userID` and `role` context keys. */
  datatype AuthContext = AuthContext(userId: Option<string>, role: Option<string>)

  const Anonymous := AuthContext(None, None)

  /** `r.Context().Value(ctxRole).(string)` with the failed assertion giving "". */
  function RoleOf(ctx: AuthContext): string {
    ctx.role.GetOr("")
  }

  /** `UserIDFromContext`: the `userID` value, or "" when there is none. */
  function UserIdOf(ctx: AuthContext): string {
    ctx.userId.GetOr("")
  }

  /** The outcome of one middleware: answer with a code, or call next with a context. */
  datatype Gate = Reject(code: int) | Forward(ctx: AuthContext)

  /** Chaining middlewares: the second runs only when the first forwards, on its context. */
  function Then(g: Gate, next: AuthContext -> Gate): Gate {
    match g
    case Reject(c) => Reject(c)
    case Forward(ctx) => next(ctx)
  }

  // ---------------------------------------------------------------------------
  // Tokens
  // ---------------------------------------------------------------------------

  /** A JWT claim value as it comes out of `jwt.MapClaims`: a string or anything else. */
  datatype Claim = Text(text: string) | NonText

  type Claims = map<string, Claim>

  /** `claims[key].(string)` with the failed assertion giving "". */
  function ClaimString(claims: Claims, key: string): string {
    if key in claims && claims[key].Text? then claims[key].text else ""
  }

  /**
   * What the JWT library reports for a token and a key: a parse error, or a parsed token
   * with its validity (signature, expiry) and its claims. Signature checking is not modelled.
   */
  datatype Verification = ParseError | Parsed(valid: bool, claims: Claims)

  const BearerPrefix := "Bearer "

  predicate HasPrefix(s: string, prefix: string) {
    |prefix| <= |s| && s[..|prefix|] == prefix
  }

  /** The header check and `strings.TrimPrefix(header, "Bearer ")` of lines 22-27. */
  function BearerToken(header: string): (token: Option<string>)
    ensures token.Some? <==> HasPrefix(header, BearerPrefix)
    ensures token.Some? ==> header == BearerPrefix + token.value
  {
    if header == "" || !HasPrefix(header, BearerPrefix) then None
    else Some(header[|BearerPrefix|..])
  }

  /** Whatever follows "Bearer " is the token handed to the verifier. */
  lemma BearerTokenRoundTrip(token: string)
    ensures BearerToken(BearerPrefix + token) == Some(token)
  {
    assert (BearerPrefix + token)[..|BearerPrefix|] == BearerPrefix;
    assert (BearerPrefix + token)[|BearerPrefix|..] == token;
  }

  /** The token check passes exactly when the header, the secret and the verifier all agree. */
  predicate Authenticates(header: string, secret: string, verify: (string, string) -> Verification) {
    && BearerToken(header).Some?
    && secret != ""
    && verify(BearerToken(header).value, secret).Parsed?
    && verify(BearerToken(header).value, secret).valid
  }

  /**
   * AuthMiddleware: 401 on a missing or non-Bearer header, on an empty JWT_SECRET, on a parse
   * error or an invalid token; otherwise next runs with `sub` and `role` in the context.
   */
  function Authenticate(header: string, secret: string, verify: (string, string) -> Verification,
                        ctx: AuthContext): (g: Gate)
    ensures g.Reject? ==> g.code == Http.Unauthorized
    ensures g.Forward? <==> Authenticates(header, secret, verify)
    ensures g.Forward? ==>
      var claims := verify(BearerToken(header).value, secret).claims;
      && g.ctx.userId == Some(ClaimString(claims, "sub"))
      && g.ctx.role == Some(ClaimString(claims, "role"))
  {
    match BearerToken(header)
    case None => Reject(Http.Unauthorized)
    case Some(token) =>
      if secret == "" then Reject(Http.Unauthorized)
      else
        match verify(token, secret)
        case ParseError => Reject(Http.Unauthorized)
        case Parsed(valid, claims) =>
          if !valid then Reject(Http.Unauthorized)
          else Forward(ctx.(userId := Some(ClaimString(claims, "sub")),
                            role := Some(ClaimString(claims, "role"))))
  }

  /** With no JWT_SECRET configured every request is refused, whatever the token. */
  lemma EmptySecretRejects(header: string, verify: (string, string) -> Verification, ctx: AuthContext)
    ensures Authenticate(header, "", verify, ctx) == Reject(Http.Unauthorized)
  {
  }

  // ---------------------------------------------------------------------------
  // Roles
  // ---------------------------------------------------------------------------

  /** The allow-set RequireRole builds once from its arguments (lines 51-54). */
  function AllowSet(roles: seq<string>): (allowed: set<string>)
    ensures forall r :: r in allowed <==> r in roles
  {
    if roles == [] then {} else {roles[0]} + AllowSet(roles[1..])
  }

  /** RequireRole(roles...): next runs unchanged iff the context role is allowed, else 403. */
  function RequireRole(roles: seq<string>, ctx: AuthContext): (g: Gate)
    ensures g.Forward? <==> RoleOf(ctx) in roles
    ensures g.Forward? ==> g.ctx == ctx
    ensures g.Reject? ==> g.code == Http.Forbidden
  {
    var allowed := AllowSet(roles);
    if RoleOf(ctx) in allowed then Forward(ctx) else Reject(Http.Forbidden)
  }

  /** Without a role in the context the role is "", so only a list naming "" lets it through. */
  lemma MissingRoleForbidden(roles: seq<string>, ctx: AuthContext)
    requires ctx.role.None?
    ensures RequireRole(roles, ctx).Forward? <==> "" in roles
  {
  }

  /** An outer and an inner RequireRole together admit exactly the roles on both lists. */
  lemma StackedRoleGates(outer: seq<string>, inner: seq<string>, ctx: AuthContext)
    ensures Then(RequireRole(outer, ctx), c => RequireRole(inner, c)) == Forward(ctx)
            <==> RoleOf(ctx) in outer && RoleOf(ctx) in inner
    ensures Then(RequireRole(outer, ctx), c => RequireRole(inner, c)).Reject? ==>
            Then(RequireRole(outer, ctx), c => RequireRole(inner, c)).code == Http.Forbidden
  {
  }

  /**
   * AuthMiddleware followed by RequireRole: a request that fails the token check is 401 and
   * never reaches the role check; an authenticated request whose role is outside the list is
   * 403; only an authenticated, allowed request reaches the handler.
   */
  lemma AuthenticatedRoleGate(header: string, secret: string, verify: (string, string) -> Verification,
                              roles: seq<string>, ctx: AuthContext)
    ensures var g := Then(Authenticate(header, secret, verify, ctx), c => RequireRole(roles, c));
      && (g == Reject(Http.Unauthorized) <==> !Authenticates(header, secret, verify))
      && (g == Reject(Http.Forbidden) <==>
            Authenticates(header, secret, verify) &&
            ClaimString(verify(BearerToken(header).value, secret).claims, "role") !in roles)
      && (g.Forward? <==>
            Authenticates(header, secret, verify) &&
            ClaimString(verify(BearerToken(header).value, secret).claims, "role") in roles)
  {
  }
}
