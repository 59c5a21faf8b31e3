/** The access-token policy of internal/auth/jwt.go: token lifetimes, the claim shape,
    and HS256 signing and verification (RFC 7519, RFC 7518 section 3.2) over an
    abstract signer. Times are integers counting nanoseconds, the unit of Go's
    time.Duration; the clock reading is a parameter. */
module Jwt {
  import opened Results

  const Second: int := 1_000_000_000
  const Hour: int := 3600 * Second
  /** JWT_DURATION: access tokens live 7 days. */
  const JwtDuration: int := 24 * Hour * 7
  /** JWT_REFRESH_DURATION: refresh tokens live 14 days. */
  const JwtRefreshDuration: int := 24 * Hour * 14

  /** JWTManager: the HS256 secret and the two lifetimes. */
  datatype JwtManager = JwtManager(secretKey: string, tokenDuration: int, refreshDuration: int)

  /** UserClaims: the user id plus the registered claims that matter here: `exp`
      (RFC 7519 section 4.1.4), which Generate sets and a token made elsewhere may lack,
      and the token id `jti` (section 4.1.7), which Generate leaves empty. */
  datatype UserClaims = UserClaims(userID: int, expiresAt: Option<int>, id: string)

  /** What a parser hands back as the claims of a token: the requested UserClaims,
      or some other claims type. */
  datatype ParsedClaims = AsUserClaims(claims: UserClaims) | OtherClaims

  /** The result of jwt.ParseWithClaims: an error, or a token with its `Valid` flag and claims. */
  datatype ParseOutcome = ParseError(message: string) | Parsed(valid: bool, claims: ParsedClaims)

  /** The HS256 library as a pair of functions: `sign(secret, claims)` is
      SignedString over the claims; `parse(secret, token, now)` is ParseWithClaims
      validating the token at time `now`. */
  datatype Signer = Signer(sign: (string, UserClaims) -> Result<string>,
                           parse: (string, string, int) -> ParseOutcome)

  /** RFC 7519 section 4.1.4: a token may be accepted only while now is before its `exp`. */
  predicate Unexpired(c: UserClaims, now: int)
  {
    c.expiresAt.None? || now < c.expiresAt.value
  }

  /** The parse result that Verify accepts. */
  predicate Accepts(p: ParseOutcome)
  {
    p.Parsed? && p.valid && p.claims.AsUserClaims?
  }

  /** What HS256 with one shared secret guarantees: a token signed under a key parses
      under the same key to the signed claims while unexpired; when a signed token is
      accepted, it carries exactly the signed claims; nothing expired is accepted. */
  ghost predicate Sound(sg: Signer)
  {
    && (forall key, c, now :: sg.sign(key, c).Ok? && Unexpired(c, now) ==>
          sg.parse(key, sg.sign(key, c).value, now) == Parsed(true, AsUserClaims(c)))
    && (forall key, c, now :: sg.sign(key, c).Ok? && Accepts(sg.parse(key, sg.sign(key, c).value, now)) ==>
          sg.parse(key, sg.sign(key, c).value, now).claims.claims == c)
    && (forall key, t, now :: Accepts(sg.parse(key, t, now)) ==> Unexpired(sg.parse(key, t, now).claims.claims, now))
  }

  /** NewJWTManager: the given secret with the 7-day access and 14-day refresh lifetimes. */
  function NewJwtManager(secretKey: string): (m: JwtManager)
    ensures m.secretKey == secretKey
    ensures m.tokenDuration == 7 * 24 * 3600 * Second
    ensures m.refreshDuration == 2 * m.tokenDuration
  {
    JwtManager(secretKey, JwtDuration, JwtRefreshDuration)
  }

  /** jwt.NewNumericDate: the time truncated to a whole second (golang-jwt's default TimePrecision). */
  function NumericDate(t: int): (d: int)
    ensures d <= t < d + Second
    ensures d % Second == 0
  {
    t - t % Second
  }

  /** The claims signed for `userID` at time `now` under the token id `jti`. */
  function ClaimsFor(m: JwtManager, userID: int, now: int, jti: string): UserClaims
  {
    UserClaims(userID, Some(NumericDate(now + m.tokenDuration)), jti)
  }

  /** Generate: sign the user's id with an `exp` one token lifetime after `now`, truncated
      to the second, and no token id; the signer's error, if any, is passed back. */
  function Generate(m: JwtManager, sg: Signer, userID: int, now: int): (r: Result<string>)
    ensures r == sg.sign(m.secretKey, UserClaims(userID, Some(NumericDate(now + m.tokenDuration)), ""))
  {
    sg.sign(m.secretKey, ClaimsFor(m, userID, now, ""))
  }

  /** Generate with a per-login token id `jti` in the claims, so that two logins of one
      user in the same second sign different claims. */
  function GenerateWithID(m: JwtManager, sg: Signer, userID: int, now: int, jti: string): (r: Result<string>)
    ensures r == sg.sign(m.secretKey, UserClaims(userID, Some(NumericDate(now + m.tokenDuration)), jti))
  {
    sg.sign(m.secretKey, ClaimsFor(m, userID, now, jti))
  }

  /** Verify: "invalid token" when parsing fails or the token is not valid,
      "invalid claims" when the claims are not UserClaims, otherwise the claims. */
  function Verify(m: JwtManager, sg: Signer, tokenStr: string, now: int): (r: Result<UserClaims>)
    ensures r.Ok? <==> Accepts(sg.parse(m.secretKey, tokenStr, now))
    ensures r.Ok? ==> r.value == sg.parse(m.secretKey, tokenStr, now).claims.claims
    ensures r.Err? && r.error == "invalid claims" <==>
              sg.parse(m.secretKey, tokenStr, now) == Parsed(true, OtherClaims)
    ensures r.Err? && r.error != "invalid claims" ==> r.error == "invalid token"
  {
    var p := sg.parse(m.secretKey, tokenStr, now);
    if p.ParseError? || !p.valid then Err("invalid token")
    else match p.claims
      case AsUserClaims(c) => Ok(c)
      case OtherClaims => Err("invalid claims")
  }

  /** CreateExpiry: the access and refresh expiry instants for a session opened at `now`. */
  function CreateExpiry(m: JwtManager, now: int): (r: (int, int))
    ensures r.0 - now == m.tokenDuration && r.1 - now == m.refreshDuration
  {
    (now + m.tokenDuration, now + m.refreshDuration)
  }

  /** With the default lifetimes the refresh window outlives the access window by exactly 7 days. */
  lemma DefaultRefreshOutlivesAccess(secretKey: string, now: int)
    ensures var e := CreateExpiry(NewJwtManager(secretKey), now);
            e.1 - e.0 == 7 * 24 * 3600 * Second && e.0 < e.1
  {
  }

  /** The `exp` a generated token carries lies within the second before the session's
      access expiry computed by CreateExpiry at the same instant. */
  lemma ClaimExpiryMatchesSessionExpiry(m: JwtManager, userID: int, now: int)
    ensures var exp := ClaimsFor(m, userID, now, "").expiresAt.value;
            var access := CreateExpiry(m, now).0;
            exp <= access < exp + Second
  {
  }

  /** Round trip: under a sound signer, a token Generate made verifies, with the same
      manager, to the same user id and its `exp`, exactly while that `exp` is ahead of the clock. */
  lemma GenerateVerifyRoundTrip(m: JwtManager, sg: Signer, userID: int, issuedAt: int, token: string, now: int)
    requires Sound(sg)
    requires Generate(m, sg, userID, issuedAt) == Ok(token)
    ensures var exp := NumericDate(issuedAt + m.tokenDuration);
            && (now < exp ==> Verify(m, sg, token, now) == Ok(UserClaims(userID, Some(exp), "")))
            && (exp <= now ==> Verify(m, sg, token, now).Err?)
  {
    var c := ClaimsFor(m, userID, issuedAt, "");
    var p := sg.parse(m.secretKey, token, now);
    assert p == sg.parse(m.secretKey, sg.sign(m.secretKey, c).value, now);
    if now < c.expiresAt.value {
      assert Unexpired(c, now);
      assert p == Parsed(true, AsUserClaims(c));
    }
  }

  /** Generate signs nothing but the user id and a whole-second `exp`, so with the default
      lifetimes two tokens issued to one user within the same second are the same input
      to the signer, and HS256, being deterministic, makes them the same token. */
  lemma GenerateSameSecond(secretKey: string, sg: Signer, userID: int, t1: int, t2: int)
    requires t1 / Second == t2 / Second
    ensures Generate(NewJwtManager(secretKey), sg, userID, t1) == Generate(NewJwtManager(secretKey), sg, userID, t2)
  {
    var d := JwtDuration;
    assert d == (7 * 24 * 3600) * Second;
    assert (t1 + d) / Second == t1 / Second + 7 * 24 * 3600;
    assert (t2 + d) / Second == t2 / Second + 7 * 24 * 3600;
    assert NumericDate(t1 + d) == (t1 + d) / Second * Second;
    assert NumericDate(t2 + d) == (t2 + d) / Second * Second;
  }

  /** With distinct token ids, two tokens signed for one user at the same instant differ
      whenever the token lifetime is at least a second: each parses back to its own claims
      until its `exp`, so equal tokens would carry equal ids. */
  lemma DistinctIDsDistinctTokens(m: JwtManager, sg: Signer, userID: int, now: int, jti1: string, jti2: string)
    requires Sound(sg) && Second <= m.tokenDuration && jti1 != jti2
    requires GenerateWithID(m, sg, userID, now, jti1).Ok? && GenerateWithID(m, sg, userID, now, jti2).Ok?
    ensures GenerateWithID(m, sg, userID, now, jti1).value != GenerateWithID(m, sg, userID, now, jti2).value
  {
    var c1 := ClaimsFor(m, userID, now, jti1);
    var c2 := ClaimsFor(m, userID, now, jti2);
    assert Unexpired(c1, now) && Unexpired(c2, now);
    var p1 := sg.parse(m.secretKey, sg.sign(m.secretKey, c1).value, now);
    var p2 := sg.parse(m.secretKey, sg.sign(m.secretKey, c2).value, now);
    assert p1 == Parsed(true, AsUserClaims(c1));
    assert p2 == Parsed(true, AsUserClaims(c2));
    assert p1 != p2;
  }

  /** jwt.ParseWithClaims decodes into the UserClaims value it is given, so whatever it
      parses is UserClaims. */
  ghost predicate TypedClaims(sg: Signer)
  {
    forall key, t, now :: sg.parse(key, t, now).Parsed? ==> sg.parse(key, t, now).claims.AsUserClaims?
  }

  /** With a parser that decodes into UserClaims, Verify's "invalid claims" branch is never taken. */
  lemma InvalidClaimsUnreachable(m: JwtManager, sg: Signer, tokenStr: string, now: int)
    requires TypedClaims(sg)
    ensures Verify(m, sg, tokenStr, now) != Err("invalid claims")
  {
  }

  /** A token Verify accepts is never past its own `exp` at the time of verification. */
  lemma VerifiedIsUnexpired(m: JwtManager, sg: Signer, tokenStr: string, now: int)
    requires Sound(sg)
    requires Verify(m, sg, tokenStr, now).Ok?
    ensures Unexpired(Verify(m, sg, tokenStr, now).value, now)
  {
  }
}
