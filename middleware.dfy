/** The request gates of internal/middleware: the request-context keys
    (context_keys.go) and the Auth and AdminOnly wrappers (auth.go), each written as a
    decision that either rejects the request with a status and a message, or passes it
    on to the wrapped handler with a context. */
module Middleware {
  import opened Results
  import opened Strings
  import Jwt
  import SessionStore
  import UserStore
  import AuthService

  /** contextKey: keys of this unexported type cannot collide with keys set by other packages. */
  datatype ContextKey = ContextKey(name: string)

  const UserIDKey: ContextKey := ContextKey("user_id")
  const UserRoleKey: ContextKey := ContextKey("user_role")

  /** A value stored in a context, tagged with its dynamic Go type. */
  datatype Value = Int64Value(i: int) | IntValue(n: int) | StringValue(s: string)

  /** A request context: the value each key resolves to (a later WithValue shadows an earlier one). */
  type Context = map<ContextKey, Value>

  /** GetUserIdFromContext: the id when the value under the user-id key is an int64,
      and (0, false) when it is absent or of another type. */
  function GetUserIdFromContext(ctx: Context): (r: (int, bool))
    ensures r.1 <==> UserIDKey in ctx && ctx[UserIDKey].Int64Value?
    ensures r.1 ==> r.0 == ctx[UserIDKey].i
    ensures !r.1 ==> r.0 == 0
  {
    if UserIDKey in ctx && ctx[UserIDKey].Int64Value? then (ctx[UserIDKey].i, true) else (0, false)
  }

  /** GetUserRoleFromContext: the role when the value under the role key is a string,
      and ("", false) otherwise. */
  function GetUserRoleFromContext(ctx: Context): (r: (string, bool))
    ensures r.1 <==> UserRoleKey in ctx && ctx[UserRoleKey].StringValue?
    ensures r.1 ==> r.0 == ctx[UserRoleKey].s
    ensures !r.1 ==> r.0 == ""
  {
    if UserRoleKey in ctx && ctx[UserRoleKey].StringValue? then (ctx[UserRoleKey].s, true) else ("", false)
  }

  /** The two keys are distinct: storing under one never changes what the other reads. */
  lemma KeysIndependent(ctx: Context, v: Value)
    ensures GetUserRoleFromContext(ctx[UserIDKey := v]) == GetUserRoleFromContext(ctx)
    ensures GetUserIdFromContext(ctx[UserRoleKey := v]) == GetUserIdFromContext(ctx)
  {
  }

  const StatusUnauthorized: int := 401
  const StatusForbidden: int := 403

  /** What a gate does with a request: reject it (http.Error with a status and a
      message), or call the wrapped handler once with the given context. */
  datatype Outcome = Reject(status: int, message: string) | Next(ctx: Context)

  /** The token Auth works on: the Authorization header with one leading "Bearer "
      removed, or the whole header when it has no such prefix. */
  function AuthToken(header: string): (token: string)
    ensures HasPrefix(header, "Bearer ") ==> "Bearer " + token == header
    ensures !HasPrefix(header, "Bearer ") ==> token == header
  {
    TrimPrefix(header, "Bearer ")
  }

  /** Auth: 401 "unauthorized" for an empty token; 401 "invalid or expired session" when
      Verify fails or the session ledger does not hold the (user, token) pair; otherwise
      the wrapped handler runs with the verified user id in the context. */
  function Auth(header: string, ctx: Context, m: Jwt.JwtManager, sg: Jwt.Signer, now: int,
                sessions: SessionStore.Store, sessionFault: Option<string>): (o: Outcome)
    reads sessions
    ensures AuthToken(header) == "" ==> o == Reject(StatusUnauthorized, "unauthorized")
    ensures var token := AuthToken(header);
            var claims := Jwt.Verify(m, sg, token, now);
            o.Next? <==> token != "" && claims.Ok? && sessions.IsValid(claims.value.userID, token, sessionFault)
    ensures AuthToken(header) != "" && o.Reject? ==> o == Reject(StatusUnauthorized, "invalid or expired session")
    ensures o.Next? ==> o.ctx == ctx[UserIDKey := Int64Value(Jwt.Verify(m, sg, AuthToken(header), now).value.userID)]
  {
    var token := AuthToken(header);
    if token == "" then Reject(StatusUnauthorized, "unauthorized")
    else
      var claims := Jwt.Verify(m, sg, token, now);
      if claims.Err? || !sessions.IsValid(claims.value.userID, token, sessionFault) then
        Reject(StatusUnauthorized, "invalid or expired session")
      else
        Next(ctx[UserIDKey := Int64Value(claims.value.userID)])
  }

  /** A token Verify rejects is rejected whatever the session ledger holds: the ledger is not consulted. */
  lemma AuthVerifyFailureIgnoresLedger(header: string, ctx: Context, m: Jwt.JwtManager, sg: Jwt.Signer, now: int,
                                       s1: SessionStore.Store, f1: Option<string>,
                                       s2: SessionStore.Store, f2: Option<string>)
    requires Jwt.Verify(m, sg, AuthToken(header), now).Err?
    ensures Auth(header, ctx, m, sg, now, s1, f1) == Auth(header, ctx, m, sg, now, s2, f2)
  {
  }

  /** The context Auth passes on reads back the verified user id, and no role unless the
      incoming context already had one. */
  lemma AuthContext(header: string, ctx: Context, m: Jwt.JwtManager, sg: Jwt.Signer, now: int,
                    sessions: SessionStore.Store, sessionFault: Option<string>)
    requires Auth(header, ctx, m, sg, now, sessions, sessionFault).Next?
    ensures var out := Auth(header, ctx, m, sg, now, sessions, sessionFault).ctx;
            && GetUserIdFromContext(out) == (Jwt.Verify(m, sg, AuthToken(header), now).value.userID, true)
            && GetUserRoleFromContext(out) == GetUserRoleFromContext(ctx)
  {
  }

  /** AdminOnly: 401 "unauthorized" when the context holds no user id; 403 "forbidden"
      for any CheckRole error, a failed lookup as much as a role other than "admin";
      otherwise the wrapped handler runs with the context unchanged. */
  function AdminOnly(ctx: Context, d: UserStore.Directory, roleFault: Option<string>): (o: Outcome)
    ensures !GetUserIdFromContext(ctx).1 ==> o == Reject(StatusUnauthorized, "unauthorized")
    ensures o.Next? <==> GetUserIdFromContext(ctx).1
                         && UserStore.GetRole(d, GetUserIdFromContext(ctx).0, roleFault) == Ok("admin")
    ensures o.Next? ==> o.ctx == ctx
    ensures GetUserIdFromContext(ctx).1 && o.Reject? ==> o == Reject(StatusForbidden, "forbidden")
  {
    var (userId, ok) := GetUserIdFromContext(ctx);
    if !ok then Reject(StatusUnauthorized, "unauthorized")
    else if AuthService.CheckRole(d, userId, "admin", roleFault).Some? then Reject(StatusForbidden, "forbidden")
    else Next(ctx)
  }

  /** Login followed by a request carrying its token: when the ledger holds exactly one
      row for the pair and the token is still within its `exp`, Auth passes the request on
      with the user's id. */
  lemma AuthAcceptsFreshLogin(m: Jwt.JwtManager, sg: Jwt.Signer, userID: int, issuedAt: int, token: string,
                              now: int, ctx: Context, sessions: SessionStore.Store)
    requires Jwt.Sound(sg)
    requires Jwt.Generate(m, sg, userID, issuedAt) == Ok(token) && token != ""
    requires now < Jwt.NumericDate(issuedAt + m.tokenDuration)
    requires SessionStore.Count(sessions.rows, userID, token) == 1
    ensures Auth("Bearer " + token, ctx, m, sg, now, sessions, None) == Next(ctx[UserIDKey := Int64Value(userID)])
  {
    assert HasPrefix("Bearer " + token, "Bearer ");
    assert AuthToken("Bearer " + token) == token;
    Jwt.GenerateVerifyRoundTrip(m, sg, userID, issuedAt, token, now);
    SessionStore.CountIsOne(sessions.rows, userID, token);
  }

  /** After logout deletes the token's rows, a request carrying that token is rejected
      with 401, however valid its signature still is. */
  lemma AuthRejectsAfterLogout(m: Jwt.JwtManager, sg: Jwt.Signer, token: string, now: int, ctx: Context,
                               sessions: SessionStore.Store, before: seq<SessionStore.Session>, fault: Option<string>)
    requires sessions.rows == SessionStore.Remove(before, SessionStore.AccessToken(token))
    ensures Auth("Bearer " + token, ctx, m, sg, now, sessions, fault).Reject?
    ensures Auth("Bearer " + token, ctx, m, sg, now, sessions, fault).status == StatusUnauthorized
  {
    assert HasPrefix("Bearer " + token, "Bearer ");
    assert AuthToken("Bearer " + token) == token;
    var claims := Jwt.Verify(m, sg, token, now);
    if claims.Ok? {
      SessionStore.LogoutRevokes(sessions, before, token, claims.value.userID, fault);
    }
  }

  /** When the ledger holds the (user, token) pair twice, as two logins of one user in the
      same second leave it, Auth rejects that token: IsValid wants exactly one row. */
  lemma AuthRejectsDuplicatedSession(m: Jwt.JwtManager, sg: Jwt.Signer, token: string, now: int, ctx: Context,
                                     sessions: SessionStore.Store)
    requires token != "" && Jwt.Verify(m, sg, token, now).Ok?
    requires SessionStore.Count(sessions.rows, Jwt.Verify(m, sg, token, now).value.userID, token) >= 2
    ensures Auth("Bearer " + token, ctx, m, sg, now, sessions, None) == Reject(StatusUnauthorized, "invalid or expired session")
  {
    assert HasPrefix("Bearer " + token, "Bearer ");
    assert AuthToken("Bearer " + token) == token;
    SessionStore.CountIsOne(sessions.rows, Jwt.Verify(m, sg, token, now).value.userID, token);
  }
}
