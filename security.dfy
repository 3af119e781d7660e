/**
 * The security handler: password hashing, access and refresh token issue,
 * token verification, and the bearer-token gate that resolves a token to a
 * stored user. Time is the parameter `now`, in seconds since the epoch.
 */
module Security {
  import opened Wrappers
  import Bcrypt
  import Jwt
  import Models
  import HttpStatus
  import Repository
  import A = ApiResponse

  /** Configuration defaults: `ALGORITHM` and `ACCESS_TOKEN_EXPIRE_MINUTES`. */
  const DefaultAlgorithm: string := "HS256"
  const DefaultAccessTokenExpireMinutes: int := 30

  /** Refresh tokens live a fixed seven days, whatever the access-token setting. */
  const RefreshTokenDays: int := 7
  const SecondsPerMinute: int := 60
  const SecondsPerDay: int := 86400

  /** The shape `verify_token` returns: `{valid, username}`. */
  datatype VerifyResult = VerifyResult(valid: bool, username: Option<string>)

  /** The `detail` of the gate's 401 `HTTPException`. */
  datatype LoginDetail = LoginDetail(isLogin: bool, message: string)

  /** What `get_user_login_in` does: raise a 401, return a 404 envelope, or return the user. */
  datatype GateOutcome =
    | Rejected(statusCode: int, detail: LoginDetail)
    | NotFoundReply(resp: A.Response)
    | Authenticated(user: Models.User)

  /** `AuthSecurity`: the signing key, the algorithm and the access-token lifetime in minutes. */
  datatype AuthSecurity = AuthSecurity(secretKey: string, algorithm: string, accessTokenExpire: int) {

    /**
     * `get_hashed_password`: handed unchanged to bcrypt; the salt is the
     * caller's random input. passlib's refusal of the secret propagates.
     */
    function GetHashedPassword(password: string, salt: nat): (r: Result<Bcrypt.Hash, Bcrypt.HashError>)
      ensures r.Ok? <==> Bcrypt.Acceptable(password)
      ensures r.Err? ==> Some(r.error) == Bcrypt.SecretError(password)
      ensures r.Ok? ==> VerifyHashedPassword(password, r.value) == Ok(true) && r.value.salt == salt
    {
      Bcrypt.HashPassword(password, salt)
    }

    /**
     * `verify_hashed_password`: handed unchanged to bcrypt. It raises for a
     * secret passlib refuses, whatever the stored hash, and is otherwise true
     * exactly when the password agrees with the hashed one on what bcrypt
     * consumes.
     */
    function VerifyHashedPassword(plain: string, hashed: Bcrypt.Hash): (r: Result<bool, Bcrypt.HashError>)
      ensures r.Err? <==> !Bcrypt.Acceptable(plain)
      ensures r.Err? ==> Some(r.error) == Bcrypt.SecretError(plain)
      ensures r == Ok(true) <==> Bcrypt.Acceptable(plain) && hashed.secret == Bcrypt.Truncate(plain)
    {
      Bcrypt.Verify(plain, hashed)
    }

    function AccessTokenLifetime(): int {
      accessTokenExpire * SecondsPerMinute
    }

    /**
     * `create_access_token`: signs a copy of `data` in which `exp` is set to
     * `now` plus the configured minutes, overwriting any `exp` the caller
     * gave; every other claim is kept. `data` itself is a value and is not
     * changed.
     */
    function CreateAccessToken(data: Jwt.Claims, now: int): (t: Jwt.Token)
      ensures t.Compact? && t.alg == algorithm && t.signature == Jwt.Mac(secretKey, algorithm, t.claims)
      ensures t.claims.Keys == data.Keys + {Jwt.Exp}
      ensures t.claims[Jwt.Exp] == Jwt.Num(now + accessTokenExpire * 60)
      ensures forall k :: k in data && k != Jwt.Exp ==> t.claims[k] == data[k]
    {
      Jwt.Encode(data[Jwt.Exp := Jwt.Num(now + AccessTokenLifetime())], secretKey, algorithm)
    }

    /** `create_refresh_token`: the same, with `exp` seven days after `now`. */
    function CreateRefreshToken(data: Jwt.Claims, now: int): (t: Jwt.Token)
      ensures t.Compact? && t.alg == algorithm && t.signature == Jwt.Mac(secretKey, algorithm, t.claims)
      ensures t.claims.Keys == data.Keys + {Jwt.Exp}
      ensures t.claims[Jwt.Exp] == Jwt.Num(now + 7 * 86400)
      ensures forall k :: k in data && k != Jwt.Exp ==> t.claims[k] == data[k]
    {
      Jwt.Encode(data[Jwt.Exp := Jwt.Num(now + RefreshTokenDays * SecondsPerDay)], secretKey, algorithm)
    }

    /**
     * `verify_token`: valid with the subject exactly when the token decodes
     * under this key and algorithm at `now` and carries `sub`; otherwise
     * `{valid: false, username: None}`. A decode failure is never an error.
     */
    function VerifyToken(token: Jwt.Token, now: int): (r: VerifyResult)
      ensures r.valid <==> && token.Compact? && token.alg == algorithm
                           && token.signature == Jwt.Mac(secretKey, algorithm, token.claims)
                           && Jwt.WellTyped(token.claims)
                           && (Jwt.Exp in token.claims ==> now < token.claims[Jwt.Exp].n)
                           && Jwt.Sub in token.claims
      ensures r.valid ==> r.username == Some(token.claims[Jwt.Sub].s)
      ensures !r.valid ==> r.username == None
    {
      match Jwt.Decode(token, secretKey, [algorithm], now)
      case Err(_) => VerifyResult(false, None)
      case Ok(claims) =>
        if Jwt.Sub in claims then VerifyResult(true, Some(claims[Jwt.Sub].s))
        else VerifyResult(false, None)
    }

    /**
     * `get_user_login_in`: an invalid token raises a 401 whatever the store
     * holds; a valid token whose subject is not stored returns a 404
     * envelope (it does not raise); otherwise the stored user is returned.
     */
    function GetUserLoginIn(token: Jwt.Token, repo: Repository.UserRepository, now: int): (g: GateOutcome)
      reads repo
      requires repo.Valid()
      ensures g.Rejected? <==> !VerifyToken(token, now).valid
      ensures g.Rejected? ==> g == Rejected(401, LoginDetail(false, "User Not Logged In"))
      ensures g.NotFoundReply? <==> VerifyToken(token, now).valid && !repo.HasUsername(VerifyToken(token, now).username.value)
      ensures g.NotFoundReply? ==> g.resp == A.Envelope(false, 404, "User not found", [])
      ensures g.Authenticated? ==> g.user in repo.users && Some(g.user.username) == VerifyToken(token, now).username
    {
      var claim := VerifyToken(token, now);
      if !claim.valid then Rejected(HttpStatus.Unauthorized, LoginDetail(false, "User Not Logged In"))
      else match repo.GetByUsername(claim.username.value)
        case None => NotFoundReply(A.Envelope(false, HttpStatus.NotFound, "User not found", []))
        case Some(user) => Authenticated(user)
    }
  }

  /** The claims the backend issues: only the subject. */
  function SubjectClaims(username: string): (c: Jwt.Claims)
    ensures c.Keys == {Jwt.Sub} && c[Jwt.Sub] == Jwt.Str(username)
    ensures Jwt.WellTyped(c)
  {
    map[Jwt.Sub := Jwt.Str(username)]
  }

  /** An access token for `username` verifies as `username` exactly until its lifetime has passed. */
  lemma AccessTokenVerifies(sec: AuthSecurity, username: string, now: int, at: int)
    ensures sec.VerifyToken(sec.CreateAccessToken(SubjectClaims(username), now), at)
         == if at < now + sec.AccessTokenLifetime() then VerifyResult(true, Some(username))
            else VerifyResult(false, None)
  {
  }

  /** A refresh token for `username` verifies as `username` for seven days, so the verifier accepts either kind. */
  lemma RefreshTokenVerifies(sec: AuthSecurity, username: string, now: int, at: int)
    ensures sec.VerifyToken(sec.CreateRefreshToken(SubjectClaims(username), now), at)
         == if at < now + 7 * 86400 then VerifyResult(true, Some(username))
            else VerifyResult(false, None)
  {
  }

  /** The refresh token does not depend on the access-token lifetime setting. */
  lemma RefreshIgnoresAccessSetting(sec: AuthSecurity, minutes: int, data: Jwt.Claims, now: int)
    ensures sec.CreateRefreshToken(data, now)
         == AuthSecurity(sec.secretKey, sec.algorithm, minutes).CreateRefreshToken(data, now)
  {
  }

  /** Tokens signed under another key, and strings that are no token at all, never verify. */
  lemma ForeignTokensRejected(sec: AuthSecurity, claims: Jwt.Claims, otherKey: string, text: string, now: int)
    requires otherKey != sec.secretKey
    ensures !sec.VerifyToken(Jwt.Encode(claims, otherKey, sec.algorithm), now).valid
    ensures sec.VerifyToken(Jwt.Garbage(text), now) == VerifyResult(false, None)
  {
  }

  /** The gate's 401 does not depend on the store: it is decided before any lookup. */
  lemma GateRejectsBeforeLookup(sec: AuthSecurity, token: Jwt.Token, r1: Repository.UserRepository,
                                r2: Repository.UserRepository, now: int)
    requires r1.Valid() && r2.Valid()
    requires !sec.VerifyToken(token, now).valid
    ensures sec.GetUserLoginIn(token, r1, now) == sec.GetUserLoginIn(token, r2, now)
  {
  }
}
