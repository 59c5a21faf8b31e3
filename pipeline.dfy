/** How the gates run once composed: the protected routes wrap their handler with
    ComposeMiddleware(Auth) or ComposeMiddleware(Auth, AdminOnly), taken here to be the
    composition of internal/utils/middleware.go (router.ComposeMiddleware, which the
    handlers name, is not part of this model). A request runs the
    chain from the outside in; the first gate that rejects answers it, and the handler
    runs only when every gate has passed it on. */
module Pipeline {
  import opened Results
  import Jwt
  import SessionStore
  import UserStore
  import opened Middleware
  import opened Utils

  datatype Gate = AuthGate | AdminOnlyGate

  /** What the gates consult: the token manager, its signer and the clock for Verify, the
      session ledger for Auth, and the user directory for AdminOnly, with their faults. */
  datatype Env = Env(m: Jwt.JwtManager, sg: Jwt.Signer, now: int,
                     sessions: SessionStore.Store, sessionFault: Option<string>,
                     users: UserStore.Directory, roleFault: Option<string>)

  datatype Request = Request(header: string, ctx: Context)

  /** A rejection written by a gate, or the named handler run with a context. */
  datatype Response = Rejected(status: int, message: string) | Served(handler: string, ctx: Context)

  function Apply(g: Gate, req: Request, env: Env): Outcome
    reads env.sessions
  {
    match g
    case AuthGate => Auth(req.header, req.ctx, env.m, env.sg, env.now, env.sessions, env.sessionFault)
    case AdminOnlyGate => AdminOnly(req.ctx, env.users, env.roleFault)
  }

  /** Run a request through a chain, outermost gate first. */
  function Run(c: Chain<Gate, string>, req: Request, env: Env): Response
    reads env.sessions
  {
    match c
    case Handler(h) => Served(h, req.ctx)
    case Wrap(g, next) =>
      match Apply(g, req, env)
      case Reject(status, message) => Rejected(status, message)
      case Next(ctx) => Run(next, Request(req.header, ctx), env)
  }

  /** The admin route, ComposeMiddleware(Auth, AdminOnly) around handler `h`: Auth's checks
      decide first, AdminOnly only sees requests Auth passed on, and so AdminOnly's own
      401 is never the answer: past Auth the outcome is the handler or 403. */
  lemma {:induction false} AdminRouteOrder(h: string, req: Request, env: Env)
    ensures var r := Run(Nest([AuthGate, AdminOnlyGate], Handler(h)), req, env);
            var a := Auth(req.header, req.ctx, env.m, env.sg, env.now, env.sessions, env.sessionFault);
            && (a.Reject? ==> r == Rejected(a.status, a.message))
            && (a.Next? ==> (r.Served? <==> UserStore.GetRole(env.users, GetUserIdFromContext(a.ctx).0, env.roleFault) == Ok("admin")))
            && (a.Next? && r.Rejected? ==> r == Rejected(StatusForbidden, "forbidden"))
            && (r.Served? ==> r.handler == h && r.ctx == a.ctx)
  {
    var ms := [AuthGate, AdminOnlyGate];
    assert ms[1..] == [AdminOnlyGate] && ms[1..][1..] == [];
    var inner: Chain<Gate, string> := Wrap(AdminOnlyGate, Handler(h));
    assert Nest(ms[1..][1..], Handler(h)) == Handler(h);
    assert Nest(ms[1..], Handler(h)) == inner;
    assert Nest(ms, Handler(h)) == Wrap(AuthGate, inner);
    var a := Auth(req.header, req.ctx, env.m, env.sg, env.now, env.sessions, env.sessionFault);
    if a.Next? {
      AuthContext(req.header, req.ctx, env.m, env.sg, env.now, env.sessions, env.sessionFault);
      assert Run(Wrap(AuthGate, inner), req, env) == Run(inner, Request(req.header, a.ctx), env);
      var o := AdminOnly(a.ctx, env.users, env.roleFault);
      assert Run(inner, Request(req.header, a.ctx), env) ==
               if o.Next? then Served(h, a.ctx) else Rejected(o.status, o.message);
    }
  }

  /** The role scenario: a request that passes Auth for a user whose stored role is "user"
      gets 403, and one for a user whose role is "admin" reaches the handler. */
  lemma AdminRouteRoles(h: string, req: Request, env: Env, i: nat)
    requires UserStore.Valid(env.users) && i < |env.users.rows| && env.roleFault.None?
    requires Auth(req.header, req.ctx, env.m, env.sg, env.now, env.sessions, env.sessionFault).Next?
    requires Jwt.Verify(env.m, env.sg, AuthToken(req.header), env.now).value.userID == env.users.rows[i].id
    ensures var r := Run(Nest([AuthGate, AdminOnlyGate], Handler(h)), req, env);
            && (env.users.rows[i].role == "user" ==> r == Rejected(StatusForbidden, "forbidden"))
            && (env.users.rows[i].role == "admin" ==> r.Served?)
  {
    AdminRouteOrder(h, req, env);
    AuthContext(req.header, req.ctx, env.m, env.sg, env.now, env.sessions, env.sessionFault);
    UserStore.FindUnique(env.users, UserStore.ById(env.users.rows[i].id), i);
  }

  /** Order matters: with the gates listed the other way round, a request whose context
      holds no user id is rejected by AdminOnly with 401 before Auth ever runs. */
  lemma ReversedOrderRejects(h: string, req: Request, env: Env)
    requires UserIDKey !in req.ctx
    ensures Run(Nest([AdminOnlyGate, AuthGate], Handler(h)), req, env) == Rejected(StatusUnauthorized, "unauthorized")
  {
  }

  /** The authenticated route, ComposeMiddleware(Auth) around `h`, runs the handler exactly when Auth passes. */
  lemma {:induction false} AuthRoute(h: string, req: Request, env: Env)
    ensures var r := Run(Nest([AuthGate], Handler(h)), req, env);
            var a := Auth(req.header, req.ctx, env.m, env.sg, env.now, env.sessions, env.sessionFault);
            r == if a.Next? then Served(h, a.ctx) else Rejected(a.status, a.message)
  {
    assert [AuthGate][1..] == [];
  }
}
