/** The token codec: signed JWTs carrying a user's identity and an expiry.

    Signing is modelled symbolically. A signature is the term
    Tag(alg, claims, key): it can be checked against a key, and two tags
    are equal only when alg, claims and key are. This stands for
    HMAC-SHA256 (RFC 7518, section 3.2) without modelling its bits, and for
    the compact serialisation of RFC 7519 without its base64url and JSON
    segments: a Token value stands for the one string the library produces. */
module Jwt {
  import opened Errors

  const Hour: int := 60 * 60
  /** Lifetime of an access token: 24 hours. */
  const AccessTokenDuration: int := 24 * Hour
  /** Lifetime of a refresh token: 7 days. */
  const RefreshTokenDuration: int := 7 * 24 * Hour

  /** The two signing secrets. */
  datatype TokenConfig = TokenConfig(secretKey: string, refreshKey: string)

  /** The configuration defaults of the two secrets. */
  const DefaultSecretKey: string := "secret_key"
  const DefaultRefreshKey: string := "refresh_key"

  function DefaultTokenConfig(): TokenConfig
  {
    TokenConfig(DefaultSecretKey, DefaultRefreshKey)
  }

  /** The identity a token is minted for and the one verification recovers. */
  datatype TokenUser = TokenUser(id: int, email: string, role: string)

  /** The claims of a token; exp is an absolute Unix time in seconds. */
  datatype Claims = Claims(userId: int, email: string, role: string, exp: int)

  datatype HashAlg = SHA256 | SHA384 | SHA512

  /** The "alg" header: the signing methods the JWT library knows. */
  datatype SigningMethod =
    | HMAC(hash: HashAlg)
    | RSA(hash: HashAlg)
    | RSAPSS(hash: HashAlg)
    | ECDSA(hash: HashAlg)
    | EdDSA
    | NoSigning

  const HS256: SigningMethod := HMAC(SHA256)

  /** Tag(m, c, k) is the signature that method m computes over c with key k;
      Bytes is any other signature segment. */
  datatype Signature = Tag(alg: SigningMethod, claims: Claims, key: string) | Bytes(raw: string)

  /** A presented bearer token: either it parses into header, claims and
      signature, or it does not. */
  datatype Token =
    | Compact(alg: SigningMethod, claims: Claims, signature: Signature)
    | Malformed(raw: string)

  /** Signing with HS256 is deterministic: equal claims and key give the same token. */
  function Sign(claims: Claims, key: string): Token
  {
    Compact(HS256, claims, Tag(HS256, claims, key))
  }

  function IdentityOf(claims: Claims): TokenUser
  {
    TokenUser(claims.userId, claims.email, claims.role)
  }

  /** generateToken: claims {user_id, email, role, exp = now + duration}, signed with key. */
  function GenerateToken(user: TokenUser, key: string, duration: int, now: int): (t: Token)
    ensures t.Compact? && t.alg == HS256 && Authentic(t, key)
    ensures IdentityOf(t.claims) == user && t.claims.exp == now + duration
  {
    Sign(Claims(user.id, user.email, user.role, now + duration), key)
  }

  /** An access token: signed with the secret key, valid for 24 hours. */
  function GenerateAccessToken(cfg: TokenConfig, user: TokenUser, now: int): (t: Token)
    ensures Authentic(t, cfg.secretKey) && IdentityOf(t.claims) == user
    ensures t.claims.exp == now + 86400
  {
    GenerateToken(user, cfg.secretKey, AccessTokenDuration, now)
  }

  /** A refresh token: signed with the refresh key, valid for 7 days. */
  function GenerateRefreshToken(cfg: TokenConfig, user: TokenUser, now: int): (t: Token)
    ensures Authentic(t, cfg.refreshKey) && IdentityOf(t.claims) == user
    ensures t.claims.exp == now + 604800
  {
    GenerateToken(user, cfg.refreshKey, RefreshTokenDuration, now)
  }

  /** The token parses, names an HMAC method, and its signature is that
      method's tag over its claims with this key. */
  predicate Authentic(t: Token, key: string)
  {
    t.Compact? && t.alg.HMAC? && t.signature == Tag(t.alg, t.claims, key)
  }

  /** The JWT library's own check of "exp" while parsing: the current instant
      must be before exp. With a whole-second clock `now` this is now < exp. */
  predicate LibraryAcceptsExpiry(now: int, exp: int)
  {
    now < exp
  }

  /** VerifyToken: parse, insist on an HMAC method, check the signature with
      key, let the library check exp, check exp once more, and return the
      identity the claims carry. */
  function VerifyToken(t: Token, key: string, now: int): (r: Result<TokenUser>)
    ensures r.Ok? <==> Authentic(t, key) && now < t.claims.exp
    ensures r.Ok? ==> r.value == IdentityOf(t.claims)
    ensures t.Malformed? ==> r == Err(TokenMalformed)
    ensures t.Compact? && !t.alg.HMAC? ==> r == Err(UnknownSigningMethod)
    ensures t.Compact? && t.alg.HMAC? && t.signature != Tag(t.alg, t.claims, key) ==> r == Err(TokenSignatureInvalid)
    ensures Authentic(t, key) && t.claims.exp <= now ==> r == Err(TokenClaimsExpired)
  {
    match t
    case Malformed(_) => Err(TokenMalformed)
    case Compact(alg, claims, signature) =>
      if !alg.HMAC? then Err(UnknownSigningMethod)
      else if signature != Tag(alg, claims, key) then Err(TokenSignatureInvalid)
      else if !LibraryAcceptsExpiry(now, claims.exp) then Err(TokenClaimsExpired)
      else if now > claims.exp then Err(TokenExpired)
      else Ok(IdentityOf(claims))
  }

  /** Verification of an access token, with the secret key. */
  function VerifyAccessToken(cfg: TokenConfig, t: Token, now: int): (r: Result<TokenUser>)
    ensures r.Ok? <==> Authentic(t, cfg.secretKey) && now < t.claims.exp
    ensures r.Ok? ==> r.value == IdentityOf(t.claims)
  {
    VerifyToken(t, cfg.secretKey, now)
  }

  /** Verification of a refresh token, with the refresh key. */
  function VerifyRefreshToken(cfg: TokenConfig, t: Token, now: int): (r: Result<TokenUser>)
    ensures r.Ok? <==> Authentic(t, cfg.refreshKey) && now < t.claims.exp
    ensures r.Ok? ==> r.value == IdentityOf(t.claims)
  {
    VerifyToken(t, cfg.refreshKey, now)
  }

  /** The access and refresh tokens minted for one identity in one second are
      never the same token, whatever the keys: the refresh token outlives the
      access token by six days. */
  lemma TokenKindsDiffer(cfg: TokenConfig, user: TokenUser, now: int)
    ensures GenerateAccessToken(cfg, user, now) != GenerateRefreshToken(cfg, user, now)
    ensures GenerateRefreshToken(cfg, user, now).claims.exp
            == GenerateAccessToken(cfg, user, now).claims.exp + 6 * 86400
  {
  }

  /** Round trip: a token verifies with the key it was signed with, at any
      time from its issue up to (not including) its exp, and yields the
      identity it was minted for. */
  lemma GenerateThenVerify(user: TokenUser, key: string, duration: int, issuedAt: int, now: int)
    requires issuedAt <= now < issuedAt + duration
    ensures VerifyToken(GenerateToken(user, key, duration, issuedAt), key, now) == Ok(user)
  {
  }

  /** From exp on, the same token is rejected as expired. */
  lemma GeneratedTokenExpires(user: TokenUser, key: string, duration: int, issuedAt: int, now: int)
    requires issuedAt + duration <= now
    ensures VerifyToken(GenerateToken(user, key, duration, issuedAt), key, now) == Err(TokenClaimsExpired)
  {
  }

  /** A token signed with one key never verifies with a different key string. */
  lemma KeySeparation(user: TokenUser, signKey: string, verifyKey: string, duration: int, issuedAt: int, now: int)
    requires signKey != verifyKey
    ensures VerifyToken(GenerateToken(user, signKey, duration, issuedAt), verifyKey, now) == Err(TokenSignatureInvalid)
  {
  }

  /** With distinct secrets, an access token fails refresh verification and a
      refresh token fails access verification. */
  lemma AccessAndRefreshSeparated(cfg: TokenConfig, user: TokenUser, issuedAt: int, now: int)
    requires cfg.secretKey != cfg.refreshKey
    ensures VerifyRefreshToken(cfg, GenerateAccessToken(cfg, user, issuedAt), now) == Err(TokenSignatureInvalid)
    ensures VerifyAccessToken(cfg, GenerateRefreshToken(cfg, user, issuedAt), now) == Err(TokenSignatureInvalid)
  {
    KeySeparation(user, cfg.secretKey, cfg.refreshKey, AccessTokenDuration, issuedAt, now);
    KeySeparation(user, cfg.refreshKey, cfg.secretKey, RefreshTokenDuration, issuedAt, now);
  }

  /** The default secrets differ, so the separation above holds for them. */
  lemma DefaultKeysDiffer()
    ensures DefaultTokenConfig().secretKey != DefaultTokenConfig().refreshKey
  {
    assert DefaultSecretKey[0] != DefaultRefreshKey[0];
  }

  /** A token that names no HMAC method is rejected whatever its signature. */
  lemma NonHmacRejected(alg: SigningMethod, claims: Claims, signature: Signature, key: string, now: int)
    requires !alg.HMAC?
    ensures VerifyToken(Compact(alg, claims, signature), key, now) == Err(UnknownSigningMethod)
  {
  }

  /** The claims carry no issued-at or unique id, so two tokens minted for
      the same identity with the same key and duration are equal exactly
      when they are minted in the same second. */
  lemma SameSecondSameToken(user: TokenUser, key: string, duration: int, t1: int, t2: int)
    ensures GenerateToken(user, key, duration, t1) == GenerateToken(user, key, duration, t2) <==> t1 == t2
  {
  }
}
