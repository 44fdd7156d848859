/**
 * Token issue and validation of the JWT utility. Signing and parsing (HS256
 * with the configured secret) are an abstract codec; what the application
 * relies on about that codec is stated as predicates the lemmas assume.
 * Times are milliseconds since the epoch, passed in.
 */
module Jwt {
  import opened Common

  /** The claims the application writes and reads. */
  datatype Claims = Claims(
    userId: Option<int>,
    username: Option<string>,
    subject: Option<string>,
    issuedAt: Option<int>,
    expiration: Option<int>)

  /** The failure kinds the parser raises. */
  datatype JwtError = Expired | Unsupported | Malformed | BadSignature | IllegalArgument

  /** A failure while reading a token: the parser's, or a null claim dereferenced. */
  datatype TokenFailure = ParseFailed(error: JwtError) | NullClaim

  /**
   * The signing library: `sign(claims, secret)` builds the compact token,
   * `parse(token, secret, now)` verifies and decodes it, checking `exp` against `now`.
   */
  datatype Codec = Codec(
    sign: (Claims, string) -> string,
    parse: (string, string, int) -> Result<Claims, JwtError>)

  /** The configured secret and lifetime of a token, in milliseconds. */
  datatype JwtConfig = JwtConfig(secret: string, expiration: int)

  /**
   * A token signed with a secret parses back, with that secret, to the claims
   * it was built from, unless the current time is after its expiration.
   */
  ghost predicate RoundTrips(codec: Codec) {
    forall c: Claims, secret: string, now: int ::
      codec.parse(codec.sign(c, secret), secret, now)
        == (if c.expiration.Some? && c.expiration.value < now then Err(Expired) else Ok(c))
  }

  /** The parser never accepts a token whose expiration is before the current time. */
  ghost predicate RejectsExpired(codec: Codec) {
    forall token: string, secret: string, now: int ::
      (codec.parse(token, secret, now).Ok? && codec.parse(token, secret, now).value.expiration.Some?) ==>
        !(codec.parse(token, secret, now).value.expiration.value < now)
  }

  /** The claims `generateToken` signs: userId and username, the username again as subject, issue and expiry times. */
  function TokenClaims(userId: Option<int>, username: Option<string>, config: JwtConfig, now: int): Claims {
    Claims(userId, username, username, Some(now), Some(now + config.expiration))
  }

  /** `generateToken(userId, username)`. */
  function GenerateToken(codec: Codec, config: JwtConfig, userId: Option<int>, username: Option<string>, now: int): string {
    codec.sign(TokenClaims(userId, username, config, now), config.secret)
  }

  /** `getClaimsFromToken`: every parser failure is logged and rethrown as it is. */
  function ClaimsFromToken(codec: Codec, config: JwtConfig, token: string, now: int): Result<Claims, JwtError> {
    codec.parse(token, config.secret, now)
  }

  /** `getUsernameFromToken`: the subject, which may be null. */
  function UsernameFromToken(codec: Codec, config: JwtConfig, token: string, now: int): (r: Result<Option<string>, JwtError>)
    ensures r.Ok? <==> ClaimsFromToken(codec, config, token, now).Ok?
    ensures r.Err? ==> r.error == ClaimsFromToken(codec, config, token, now).error
  {
    match ClaimsFromToken(codec, config, token, now)
    case Ok(claims) => Ok(claims.subject)
    case Err(e) => Err(e)
  }

  /** `getUserIdFromToken`: the userId claim, which may be null. */
  function UserIdFromToken(codec: Codec, config: JwtConfig, token: string, now: int): (r: Result<Option<int>, JwtError>)
    ensures r.Ok? <==> ClaimsFromToken(codec, config, token, now).Ok?
    ensures r.Err? ==> r.error == ClaimsFromToken(codec, config, token, now).error
  {
    match ClaimsFromToken(codec, config, token, now)
    case Ok(claims) => Ok(claims.userId)
    case Err(e) => Err(e)
  }

  /** `isTokenExpired`: strict, the token is expired only when its expiration is before now. */
  function IsTokenExpired(codec: Codec, config: JwtConfig, token: string, now: int): (r: Result<bool, TokenFailure>)
    ensures r == Ok(true) <==>
      ClaimsFromToken(codec, config, token, now).Ok?
      && ClaimsFromToken(codec, config, token, now).value.expiration.Some?
      && ClaimsFromToken(codec, config, token, now).value.expiration.value < now
    ensures r.Err? <==>
      ClaimsFromToken(codec, config, token, now).Err? || ClaimsFromToken(codec, config, token, now).value.expiration.None?
  {
    match ClaimsFromToken(codec, config, token, now)
    case Err(e) => Err(ParseFailed(e))
    case Ok(claims) =>
      if claims.expiration.None? then Err(NullClaim) else Ok(claims.expiration.value < now)
  }

  /**
   * `validateToken`: the subject equals the given username and the token is
   * not expired. Every failure (parse, signature, expiry, a null subject or
   * expiration) is caught and gives false.
   */
  function ValidateToken(codec: Codec, config: JwtConfig, token: string, username: string, now: int): (r: bool)
    ensures r <==>
      ClaimsFromToken(codec, config, token, now).Ok?
      && ClaimsFromToken(codec, config, token, now).value.subject == Some(username)
      && ClaimsFromToken(codec, config, token, now).value.expiration.Some?
      && !(ClaimsFromToken(codec, config, token, now).value.expiration.value < now)
  {
    match UsernameFromToken(codec, config, token, now)
    case Err(_) => false
    case Ok(subject) =>
      if subject.None? then false
      else if subject.value != username then false
      else
        match IsTokenExpired(codec, config, token, now)
        case Ok(expired) => !expired
        case Err(_) => false
  }

  /** A generated token yields, until it expires, the userId, username and subject it was built with. */
  lemma GeneratedTokenRoundTrip(codec: Codec, config: JwtConfig, userId: Option<int>, username: Option<string>, issued: int, now: int)
    requires RoundTrips(codec)
    requires now <= issued + config.expiration
    ensures var token := GenerateToken(codec, config, userId, username, issued);
            && ClaimsFromToken(codec, config, token, now) == Ok(TokenClaims(userId, username, config, issued))
            && UsernameFromToken(codec, config, token, now) == Ok(username)
            && UserIdFromToken(codec, config, token, now) == Ok(userId)
            && IsTokenExpired(codec, config, token, now) == Ok(false)
  {
    var c := TokenClaims(userId, username, config, issued);
    assert codec.parse(codec.sign(c, config.secret), config.secret, now) == Ok(c);
  }

  /** A generated token validates for its own username until it expires, and for no other username. */
  lemma GeneratedTokenValidates(codec: Codec, config: JwtConfig, userId: Option<int>, username: string, other: string, issued: int, now: int)
    requires RoundTrips(codec)
    requires now <= issued + config.expiration
    ensures ValidateToken(codec, config, GenerateToken(codec, config, userId, Some(username), issued), username, now)
    ensures other != username ==>
      !ValidateToken(codec, config, GenerateToken(codec, config, userId, Some(username), issued), other, now)
  {
    GeneratedTokenRoundTrip(codec, config, userId, Some(username), issued, now);
  }

  /** Once the current time is after its expiration, a generated token no longer parses and never validates. */
  lemma ExpiredTokenRejected(codec: Codec, config: JwtConfig, userId: Option<int>, username: Option<string>, name: string, issued: int, now: int)
    requires RoundTrips(codec)
    requires now > issued + config.expiration
    ensures var token := GenerateToken(codec, config, userId, username, issued);
            && UsernameFromToken(codec, config, token, now) == Err(Expired)
            && !ValidateToken(codec, config, token, name, now)
  {
    var c := TokenClaims(userId, username, config, issued);
    assert codec.parse(codec.sign(c, config.secret), config.secret, now) == Err(Expired);
  }

  /**
   * With a parser that rejects expired tokens itself, `isTokenExpired` can
   * never answer true: the strict comparison in the utility is only reached
   * for tokens the parser already accepted.
   */
  lemma ExpiryCheckNeverTrue(codec: Codec, config: JwtConfig, token: string, now: int)
    requires RejectsExpired(codec)
    ensures IsTokenExpired(codec, config, token, now) != Ok(true)
  {
    var r := codec.parse(token, config.secret, now);
    if r.Ok? && r.value.expiration.Some? {
      assert !(r.value.expiration.value < now);
    }
  }
}
