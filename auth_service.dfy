/** The authentication service of internal/services/auth/service.go: role checks against
    the user directory, and login, which checks a password, issues an access token and a
    refresh token and records them in the session ledger. Password checking
    (utils.CheckPasswordHash, bcrypt) is a function parameter; the string that
    utils.GenerateRefreshToken returned, and its error, are inputs. */
module AuthService {
  import opened Results
  import Jwt
  import SessionStore
  import UserStore

  datatype TokenPair = TokenPair(accessToken: string, refreshToken: string)

  const ErrForbidden: string := "forbidden"

  /** CheckRole: the role-lookup error unchanged, "forbidden" when the stored role is not
      the expected one, and no error exactly when it is. */
  function CheckRole(d: UserStore.Directory, userID: int, expected: string, fault: Option<string>): (err: Option<string>)
    ensures err.None? <==> UserStore.GetRole(d, userID, fault) == Ok(expected)
    ensures UserStore.GetRole(d, userID, fault).Err? ==> err == Some(UserStore.GetRole(d, userID, fault).error)
    ensures var role := UserStore.GetRole(d, userID, fault);
            role.Ok? && role.value != expected ==> err == Some(ErrForbidden)
  {
    match UserStore.GetRole(d, userID, fault)
    case Err(e) => Some(e)
    case Ok(role) => if role != expected then Some(ErrForbidden) else None
  }

  /** In a valid directory CheckRole passes exactly for the role stored for the user. */
  lemma CheckRoleAgainstDirectory(d: UserStore.Directory, i: nat, expected: string)
    requires UserStore.Valid(d) && i < |d.rows|
    ensures CheckRole(d, d.rows[i].id, expected, None) ==
              if d.rows[i].role == expected then None else Some(ErrForbidden)
  {
    UserStore.FindUnique(d, UserStore.ById(d.rows[i].id), i);
  }

  /** GetRole: exactly the store's GetRole. */
  function GetRole(d: UserStore.Directory, userID: int, fault: Option<string>): (r: Result<string>)
    ensures r == UserStore.GetRole(d, userID, fault)
  {
    UserStore.GetRole(d, userID, fault)
  }

  /** The credential half of Login: "user not found" for any lookup error, "invalid
      password" when the password does not match the stored hash, else the user record. */
  function Authenticate(d: UserStore.Directory, checkPasswordHash: (string, string) -> bool,
                        email: string, password: string, fault: Option<string>): (r: Result<UserStore.User>)
    ensures r.Err? ==> r.error == "user not found" || r.error == "invalid password"
    ensures r.Ok? <==> UserStore.GetByEmail(d, email, fault).Ok?
                       && checkPasswordHash(password, UserStore.GetByEmail(d, email, fault).value.passwordHash)
    ensures r.Ok? ==> r.value.email == email && exists u :: u in d.rows && u.email == email && u.id == r.value.id
    ensures r == Err("user not found") <==> UserStore.GetByEmail(d, email, fault).Err?
  {
    match UserStore.GetByEmail(d, email, fault)
    case Err(_) => Err("user not found")
    case Ok(u) => if !checkPasswordHash(password, u.passwordHash) then Err("invalid password") else Ok(u)
  }

  /** The access token Login goes on with: golang-jwt's SignedString returns the empty
      string together with its error, and Login never looks at that error. */
  function TokenOrEmpty(g: Result<string>): (token: string)
    ensures g.Ok? ==> token == g.value
    ensures g.Err? ==> token == ""
  {
    if g.Ok? then g.value else ""
  }

  /** Login as written: after the credential checks it generates an access token and
      takes the refresh token without checking either error, computes both expiries,
      and creates the session row; a Create error is returned with an empty pair. */
  method Login(d: UserStore.Directory, sessions: SessionStore.Store, m: Jwt.JwtManager, sg: Jwt.Signer,
               checkPasswordHash: (string, string) -> bool, email: string, password: string,
               refreshToken: string, refreshErr: Option<string>, now: int,
               lookupFault: Option<string>, createFault: Option<string>)
    returns (pair: TokenPair, err: Option<string>)
    modifies sessions
    ensures var auth := Authenticate(d, checkPasswordHash, email, password, lookupFault);
            auth.Err? ==> pair == TokenPair("", "") && err == Some(auth.error) && sessions.rows == old(sessions.rows)
    ensures var auth := Authenticate(d, checkPasswordHash, email, password, lookupFault);
            auth.Ok? && createFault.Some? ==>
              pair == TokenPair("", "") && err == createFault && sessions.rows == old(sessions.rows)
    ensures var auth := Authenticate(d, checkPasswordHash, email, password, lookupFault);
            auth.Ok? && createFault.None? ==>
              var access := TokenOrEmpty(Jwt.Generate(m, sg, auth.value.id, now));
              var expiry := Jwt.CreateExpiry(m, now);
              && pair == TokenPair(access, refreshToken) && err.None?
              && sessions.rows == old(sessions.rows)
                   + [SessionStore.Session(auth.value.id, access, expiry.0, refreshToken, expiry.1)]
  {
    var user := Authenticate(d, checkPasswordHash, email, password, lookupFault);
    if user.Err? {
      return TokenPair("", ""), Some(user.error);
    }
    var accessToken := TokenOrEmpty(Jwt.Generate(m, sg, user.value.id, now));
    var (accessExp, refreshExp) := Jwt.CreateExpiry(m, now);
    err := sessions.Create(user.value.id, accessToken, refreshToken, accessExp, refreshExp, createFault);
    if err.Some? {
      return TokenPair("", ""), err;
    }
    return TokenPair(accessToken, refreshToken), None;
  }

  /** Login with the two generation errors checked: a signing or refresh-token failure
      is returned and no session is created, so every session row it creates holds a
      token the signer produced. The access token also carries a per-login token id
      `jti`, so two logins of one user in the same second get different tokens. */
  method LoginChecked(d: UserStore.Directory, sessions: SessionStore.Store, m: Jwt.JwtManager, sg: Jwt.Signer,
                      checkPasswordHash: (string, string) -> bool, email: string, password: string,
                      jti: string, refreshToken: string, refreshErr: Option<string>, now: int,
                      lookupFault: Option<string>, createFault: Option<string>)
    returns (pair: TokenPair, err: Option<string>)
    modifies sessions
    ensures err.Some? ==> pair == TokenPair("", "") && sessions.rows == old(sessions.rows)
    ensures var auth := Authenticate(d, checkPasswordHash, email, password, lookupFault);
            auth.Err? ==> err == Some(auth.error)
    ensures var auth := Authenticate(d, checkPasswordHash, email, password, lookupFault);
            auth.Ok? ==>
              var generated := Jwt.GenerateWithID(m, sg, auth.value.id, now, jti);
              && (generated.Err? ==> err == Some(generated.error))
              && (generated.Ok? && refreshErr.Some? ==> err == refreshErr)
              && (generated.Ok? && refreshErr.None? ==> err == createFault)
    ensures var auth := Authenticate(d, checkPasswordHash, email, password, lookupFault);
            var expiry := Jwt.CreateExpiry(m, now);
            err.None? ==>
              && auth.Ok? && refreshErr.None? && createFault.None?
              && Jwt.GenerateWithID(m, sg, auth.value.id, now, jti) == Ok(pair.accessToken)
              && pair.refreshToken == refreshToken
              && sessions.rows == old(sessions.rows)
                   + [SessionStore.Session(auth.value.id, pair.accessToken, expiry.0, refreshToken, expiry.1)]
  {
    var user := Authenticate(d, checkPasswordHash, email, password, lookupFault);
    if user.Err? {
      return TokenPair("", ""), Some(user.error);
    }
    var generated := Jwt.GenerateWithID(m, sg, user.value.id, now, jti);
    if generated.Err? {
      return TokenPair("", ""), Some(generated.error);
    }
    if refreshErr.Some? {
      return TokenPair("", ""), refreshErr;
    }
    var (accessExp, refreshExp) := Jwt.CreateExpiry(m, now);
    err := sessions.Create(user.value.id, generated.value, refreshToken, accessExp, refreshExp, createFault);
    if err.Some? {
      return TokenPair("", ""), err;
    }
    return TokenPair(generated.value, refreshToken), None;
  }

  /** A signer that cannot sign, and a directory holding one user whose password matches. */
  function BrokenSigner(): Jwt.Signer
  {
    Jwt.Signer((key, c) => Err("key is invalid"), (key, t, now) => Jwt.ParseError("token is malformed"))
  }

  function OneUser(): UserStore.Directory
  {
    UserStore.Directory([UserStore.User(1, "a@x.com", "hash", "user")], 2)
  }

  /** Login as written, when signing fails: it reports success, hands out an empty access
      token, and stores a session row whose access token is empty. */
  method FailedSigningStillLogsIn() returns (pair: TokenPair, err: Option<string>, rows: seq<SessionStore.Session>)
    ensures err.None? && pair.accessToken == "" && pair.refreshToken == "r"
    ensures |rows| == 1 && rows[0].userID == 1 && rows[0].token == ""
  {
    var sessions := new SessionStore.Store();
    pair, err := Login(OneUser(), sessions, Jwt.NewJwtManager("secret"), BrokenSigner(),
                       (p, h) => p == "pw" && h == "hash", "a@x.com", "pw", "r", None, 0, None, None);
    rows := sessions.rows;
  }

  /** The same login with the errors checked: the signing error comes back and no session row is created. */
  method FailedSigningRejectedWhenChecked() returns (pair: TokenPair, err: Option<string>, rows: seq<SessionStore.Session>)
    ensures err == Some("key is invalid") && pair == TokenPair("", "") && rows == []
  {
    var sessions := new SessionStore.Store();
    pair, err := LoginChecked(OneUser(), sessions, Jwt.NewJwtManager("secret"), BrokenSigner(),
                              (p, h) => p == "pw" && h == "hash", "a@x.com", "pw", "j", "r", None, 0, None, None);
    rows := sessions.rows;
  }
}
