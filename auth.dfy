/** The authentication workflow: Register, Login, RefreshToken and Logout,
    run against the user table, the refresh-token table and the token codec.
    Each request reads the clock once, as `now` (Unix seconds). */
module Auth {
  import opened Errors
  import opened Jwt
  import opened Credentials
  import opened Users
  import opened UserDto
  import opened UserService
  import opened AuthStore

  /** Every token is minted with this role. */
  const DefaultRole: string := "user"

  datatype LoginRequest = LoginRequest(email: string, password: string)

  datatype AuthResponse = AuthResponse(user: User, accessToken: Token, refreshToken: Token)

  datatype TokenPair = TokenPair(accessToken: Token, refreshToken: Token)

  /** The identity put into tokens: the user's id and email, and the default role. */
  function TokenUserOf(user: User): (r: TokenUser)
    ensures r.id == user.id && r.email == user.email && r.role == "user"
  {
    TokenUser(user.id, user.email, DefaultRole)
  }

  /** An access token and a refresh token for the same identity. */
  function GenerateTokens(cfg: TokenConfig, user: TokenUser, now: int): (r: TokenPair)
    ensures Authentic(r.accessToken, cfg.secretKey) && IdentityOf(r.accessToken.claims) == user
    ensures r.accessToken.claims.exp == now + AccessTokenDuration
    ensures Authentic(r.refreshToken, cfg.refreshKey) && IdentityOf(r.refreshToken.claims) == user
    ensures r.refreshToken.claims.exp == now + RefreshTokenDuration
  {
    TokenPair(GenerateAccessToken(cfg, user, now), GenerateRefreshToken(cfg, user, now))
  }

  /** The reply carries the user and both tokens of the pair, unchanged. */
  function MakeAuthResponse(user: User, pair: TokenPair): (r: AuthResponse)
    ensures r.user == user && r.accessToken == pair.accessToken && r.refreshToken == pair.refreshToken
  {
    AuthResponse(user, pair.accessToken, pair.refreshToken)
  }

  /** Every stored row holds a parsed token whose claims name the row's owner.
      Login and RefreshToken keep this; it is what makes revocation by user id work. */
  ghost predicate TokensBoundToRows(rows: seq<RefreshTokenRow>)
  {
    forall row :: row in rows ==> row.token.Compact? && row.token.claims.userId == row.userId
  }

  /** Rotating a user's rows to a token whose claims name that user keeps the binding. */
  lemma RotateKeepsBound(rows: seq<RefreshTokenRow>, userId: int, token: Token, expiresAt: int)
    requires TokensBoundToRows(rows)
    requires token.Compact? && token.claims.userId == userId
    ensures TokensBoundToRows(RotateForUser(rows, userId, token, expiresAt))
  {
    var r := RotateForUser(rows, userId, token, expiresAt);
    forall row | row in r ensures row.token.Compact? && row.token.claims.userId == row.userId {
      var i :| 0 <= i < |r| && r[i] == row;
      assert rows[i] in rows;
    }
  }

  /** A live stored token names, in its claims, a user who owns a row. */
  lemma LiveTokenHasOwnerRow(rows: seq<RefreshTokenRow>, token: Token, now: int)
    requires TokensBoundToRows(rows)
    requires TokenLive(rows, token, now)
    ensures token.Compact? && CountForUser(rows, token.claims.userId) > 0
  {
    var i :| 0 <= i < |rows| && rows[i].token == token && rows[i].expiresAt > now;
    assert rows[i] in rows;
  }

  /** Register's reply, given what user creation returned. */
  function RegisterResult(cfg: TokenConfig, created: Result<User>, now: int): Result<AuthResponse>
  {
    match created
    case Err(e) => Err(e)
    case Ok(user) => Ok(MakeAuthResponse(user, GenerateTokens(cfg, TokenUserOf(user), now)))
  }

  /** Login's reply, given the user table and whether each table is reachable. */
  function LoginResult(cfg: TokenConfig, users: seq<User>, usersUp: bool, storeUp: bool, req: LoginRequest, now: int): Result<AuthResponse>
  {
    match FindByEmailResult(users, usersUp, req.email)
    case Err(e) => Err(e)
    case Ok(user) =>
      if !VerifyPassword(user.password, req.password) then Err(InvalidEmailOrPassword)
      else if !storeUp then Err(StorageFailure)
      else Ok(MakeAuthResponse(user, GenerateTokens(cfg, TokenUserOf(user), now)))
  }

  /** RefreshToken's reply, given the refresh-token table before it. */
  function RefreshResult(cfg: TokenConfig, rows: seq<RefreshTokenRow>, storeUp: bool, presented: Token, now: int): Result<TokenPair>
  {
    match VerifyRefreshToken(cfg, presented, now)
    case Err(e) => Err(e)
    case Ok(user) =>
      if !(storeUp && TokenLive(rows, presented, now)) then Err(InvalidRefreshToken)
      else match UpdateOutcome(rows, storeUp, user.id)
        case Fail(e) => Err(SaveRefreshTokenFailed(e))
        case Pass => Ok(GenerateTokens(cfg, user, now))
  }

  /** The refresh-token table after RefreshToken. */
  function RowsAfterRefresh(cfg: TokenConfig, rows: seq<RefreshTokenRow>, storeUp: bool, presented: Token, now: int): seq<RefreshTokenRow>
  {
    match RefreshResult(cfg, rows, storeUp, presented, now)
    case Err(_) => rows
    case Ok(pair) => RotateForUser(rows, presented.claims.userId, pair.refreshToken, now + RefreshTokenDuration)
  }

  /** Logout's reply, given the refresh-token table before it. */
  function LogoutResult(rows: seq<RefreshTokenRow>, storeUp: bool, userId: int): Outcome
  {
    match DeleteOutcome(rows, storeUp, userId)
    case Pass => Pass
    case Fail(e) => Fail(DeleteRefreshTokenFailed(e))
  }

  /** Both tokens of a pair carry the user's id and email and the default
      role, and each verifies with its own key for its own lifetime. */
  lemma IssuedTokensIdentify(cfg: TokenConfig, user: User, issuedAt: int, now: int)
    ensures var pair := GenerateTokens(cfg, TokenUserOf(user), issuedAt);
      && (issuedAt <= now < issuedAt + AccessTokenDuration ==>
            VerifyAccessToken(cfg, pair.accessToken, now) == Ok(TokenUser(user.id, user.email, "user")))
      && (issuedAt <= now < issuedAt + RefreshTokenDuration ==>
            VerifyRefreshToken(cfg, pair.refreshToken, now) == Ok(TokenUser(user.id, user.email, "user")))
  {
    if issuedAt <= now < issuedAt + AccessTokenDuration {
      GenerateThenVerify(TokenUserOf(user), cfg.secretKey, AccessTokenDuration, issuedAt, now);
    }
    if issuedAt <= now < issuedAt + RefreshTokenDuration {
      GenerateThenVerify(TokenUserOf(user), cfg.refreshKey, RefreshTokenDuration, issuedAt, now);
    }
  }

  /** Register mints tokens only for a user that was created, and then for
      exactly that user's identity; a creation error is passed through. */
  lemma RegisterOutcomes(cfg: TokenConfig, created: Result<User>, now: int)
    ensures var r := RegisterResult(cfg, created, now);
      && (r.Ok? <==> created.Ok?)
      && (created.Err? ==> r == Err(created.error))
      && (r.Ok? ==> r.value.user == created.value
                    && VerifyAccessToken(cfg, r.value.accessToken, now) == Ok(TokenUser(created.value.id, created.value.email, "user"))
                    && VerifyRefreshToken(cfg, r.value.refreshToken, now) == Ok(TokenUser(created.value.id, created.value.email, "user")))
  {
    if created.Ok? {
      IssuedTokensIdentify(cfg, created.value, now, now);
    }
  }

  /** Login succeeds exactly when both tables answer and the row with that
      email accepts the password; it then answers with that row and tokens
      minted for it. An unknown email gives the table's "record not found". */
  lemma LoginOutcomes(cfg: TokenConfig, users: seq<User>, usersUp: bool, storeUp: bool, req: LoginRequest, now: int)
    requires UniqueKeys(users)
    ensures var r := LoginResult(cfg, users, usersUp, storeUp, req, now);
      && (r.Ok? <==> (usersUp && storeUp &&
            exists i :: 0 <= i < |users| && users[i].email == req.email && VerifyPassword(users[i].password, req.password)))
      && (r.Ok? ==> r.value.user in users && r.value.user.email == req.email
                    && VerifyPassword(r.value.user.password, req.password)
                    && r.value.accessToken == GenerateAccessToken(cfg, TokenUserOf(r.value.user), now)
                    && r.value.refreshToken == GenerateRefreshToken(cfg, TokenUserOf(r.value.user), now))
      && (usersUp && (forall i :: 0 <= i < |users| ==> users[i].email != req.email) ==> r == Err(RecordNotFound))
  {
    var r := LoginResult(cfg, users, usersUp, storeUp, req, now);
    if usersUp && storeUp && exists i :: 0 <= i < |users| && users[i].email == req.email && VerifyPassword(users[i].password, req.password) {
      var i :| 0 <= i < |users| && users[i].email == req.email && VerifyPassword(users[i].password, req.password);
      FindByEmailUnique(users, i);
    }
    if r.Ok? {
      var k :| 0 <= k < |users| && users[k] == r.value.user;
    }
  }

  /** A refresh succeeds only for a token that verifies with the refresh key
      and is live in the store; the new pair is minted from the presented
      token's claims. Each failure leaves the table as it was. */
  lemma RefreshOutcomes(cfg: TokenConfig, rows: seq<RefreshTokenRow>, storeUp: bool, presented: Token, now: int)
    ensures var r := RefreshResult(cfg, rows, storeUp, presented, now);
      && (r.Ok? ==> && Authentic(presented, cfg.refreshKey) && now < presented.claims.exp
                    && storeUp && TokenLive(rows, presented, now)
                    && r.value == GenerateTokens(cfg, IdentityOf(presented.claims), now))
      && (VerifyRefreshToken(cfg, presented, now).Err? ==> r == Err(VerifyRefreshToken(cfg, presented, now).error))
      && (VerifyRefreshToken(cfg, presented, now).Ok? && !(storeUp && TokenLive(rows, presented, now)) ==> r == Err(InvalidRefreshToken))
      && (r.Err? ==> RowsAfterRefresh(cfg, rows, storeUp, presented, now) == rows)
  {
  }

  /** With the binding invariant, a presented token that passes both checks
      always finds its owner's rows, so the rotation cannot fail. */
  lemma RefreshFindsRow(cfg: TokenConfig, rows: seq<RefreshTokenRow>, storeUp: bool, presented: Token, now: int)
    requires TokensBoundToRows(rows)
    requires VerifyRefreshToken(cfg, presented, now).Ok? && storeUp && TokenLive(rows, presented, now)
    ensures RefreshResult(cfg, rows, storeUp, presented, now).Ok?
  {
    LiveTokenHasOwnerRow(rows, presented, now);
  }

  /** Rotating the owner's rows of a live, bound token to a new token for the
      same user keeps the binding, makes the new token live and kills the
      presented one unless the two coincide. */
  lemma RotationRevokes(rows: seq<RefreshTokenRow>, presented: Token, minted: Token, now: int, expiresAt: int, later: int)
    requires TokensBoundToRows(rows) && TokenLive(rows, presented, now)
    requires presented.Compact? && minted.Compact? && minted.claims.userId == presented.claims.userId
    requires now < expiresAt
    ensures var after := RotateForUser(rows, presented.claims.userId, minted, expiresAt);
      && TokensBoundToRows(after)
      && TokenLive(after, minted, now)
      && (presented != minted ==> !TokenLive(after, presented, later))
  {
    var uid := presented.claims.userId;
    LiveTokenHasOwnerRow(rows, presented, now);
    RotateUniform(rows, uid, minted, expiresAt, now);
    RotateKeepsBound(rows, uid, minted, expiresAt);
    if presented != minted {
      RotateRevokesOthers(rows, uid, minted, expiresAt, presented, later);
    }
  }

  /** The success path of RefreshToken: a token that verifies and is live in
      a bound table yields the pair minted from its claims, and the table
      becomes the rotation of its owner's rows to the new refresh token. */
  lemma RefreshSucceeds(cfg: TokenConfig, rows: seq<RefreshTokenRow>, presented: Token, now: int)
    requires TokensBoundToRows(rows)
    requires VerifyRefreshToken(cfg, presented, now).Ok? && TokenLive(rows, presented, now)
    ensures var user := IdentityOf(presented.claims);
      && VerifyRefreshToken(cfg, presented, now) == Ok(user)
      && UpdateOutcome(rows, true, user.id) == Pass
      && RefreshResult(cfg, rows, true, presented, now) == Ok(GenerateTokens(cfg, user, now))
      && RowsAfterRefresh(cfg, rows, true, presented, now)
         == RotateForUser(rows, user.id, GenerateRefreshToken(cfg, user, now), now + RefreshTokenDuration)
  {
    LiveTokenHasOwnerRow(rows, presented, now);
  }

  /** After a successful refresh the new refresh token is live, and the
      presented one is dead from then on unless it equals the new one. */
  lemma RefreshRevokesPresented(cfg: TokenConfig, rows: seq<RefreshTokenRow>, storeUp: bool, presented: Token, now: int, later: int)
    requires TokensBoundToRows(rows)
    requires RefreshResult(cfg, rows, storeUp, presented, now).Ok?
    ensures var pair := RefreshResult(cfg, rows, storeUp, presented, now).value;
      var after := RowsAfterRefresh(cfg, rows, storeUp, presented, now);
      && TokensBoundToRows(after)
      && TokenLive(after, pair.refreshToken, now)
      && (presented != pair.refreshToken ==> !TokenLive(after, presented, later))
  {
    RefreshOutcomes(cfg, rows, storeUp, presented, now);
    var pair := RefreshResult(cfg, rows, storeUp, presented, now).value;
    assert pair.refreshToken.claims.userId == presented.claims.userId;
    RotationRevokes(rows, presented, pair.refreshToken, now, now + RefreshTokenDuration, later);
  }

  /** Refreshing in the same second as the presented token was minted
      re-mints the identical token: the claims hold no issued-at or unique
      id, and signing is deterministic. The presented token stays live. */
  lemma SameSecondRefreshKeepsToken(cfg: TokenConfig, rows: seq<RefreshTokenRow>, storeUp: bool, user: TokenUser, now: int)
    requires TokensBoundToRows(rows)
    requires RefreshResult(cfg, rows, storeUp, GenerateRefreshToken(cfg, user, now), now).Ok?
    ensures var presented := GenerateRefreshToken(cfg, user, now);
      && RefreshResult(cfg, rows, storeUp, presented, now).value.refreshToken == presented
      && TokenLive(RowsAfterRefresh(cfg, rows, storeUp, presented, now), presented, now)
  {
    RefreshRevokesPresented(cfg, rows, storeUp, GenerateRefreshToken(cfg, user, now), now, now);
  }

  /** A refresh in a later second than the presented token's minting yields a
      different refresh token, so the presented one is revoked. */
  lemma LaterRefreshRevokes(cfg: TokenConfig, rows: seq<RefreshTokenRow>, storeUp: bool, user: TokenUser, issuedAt: int, now: int, later: int)
    requires TokensBoundToRows(rows) && issuedAt != now
    requires RefreshResult(cfg, rows, storeUp, GenerateRefreshToken(cfg, user, issuedAt), now).Ok?
    ensures !TokenLive(RowsAfterRefresh(cfg, rows, storeUp, GenerateRefreshToken(cfg, user, issuedAt), now),
                       GenerateRefreshToken(cfg, user, issuedAt), later)
  {
    var presented := GenerateRefreshToken(cfg, user, issuedAt);
    var pair := RefreshResult(cfg, rows, storeUp, presented, now).value;
    assert pair.refreshToken.claims.exp == now + RefreshTokenDuration;
    RefreshRevokesPresented(cfg, rows, storeUp, presented, now, later);
  }

  /** After a successful Logout, no token that was stored for that user is
      live, so refreshing with any of them fails, whatever the time. */
  lemma LogoutRevokes(cfg: TokenConfig, rows: seq<RefreshTokenRow>, storeUp: bool, userId: int, token: Token, laterUp: bool, later: int)
    requires TokensBoundToRows(rows)
    requires LogoutResult(rows, storeUp, userId) == Pass
    requires exists i :: 0 <= i < |rows| && rows[i].userId == userId && rows[i].token == token
    ensures !TokenLive(RemoveForUser(rows, userId), token, later)
    ensures RefreshResult(cfg, RemoveForUser(rows, userId), laterUp, token, later).Err?
  {
    var i :| 0 <= i < |rows| && rows[i].userId == userId && rows[i].token == token;
    assert rows[i] in rows;
    var after := RemoveForUser(rows, userId);
    forall k | 0 <= k < |after| ensures after[k].token != token {
      assert after[k] in after;
    }
  }

  class AuthUsecase {
    const cfg: TokenConfig
    const authRepo: AuthRepository
    const userUsecase: UserUsecase

    ghost predicate Valid()
      reads this, authRepo, userUsecase.repo
    {
      authRepo.Valid() && userUsecase.repo.Valid() && TokensBoundToRows(authRepo.rows)
    }

    constructor (cfg: TokenConfig, authRepo: AuthRepository, userUsecase: UserUsecase)
      requires authRepo.Valid() && userUsecase.repo.Valid() && TokensBoundToRows(authRepo.rows)
      ensures Valid()
      ensures this.cfg == cfg && this.authRepo == authRepo && this.userUsecase == userUsecase
    {
      this.cfg := cfg;
      this.authRepo := authRepo;
      this.userUsecase := userUsecase;
    }

    /** Create the user, then mint both tokens for it. The refresh-token
        table is not touched: no row is saved for these tokens. */
    method Register(req: CreateUserRequest, salt: int, now: int) returns (r: Result<AuthResponse>)
      requires Valid()
      requires IsValidCreateUserRequest(req)
      modifies userUsecase.repo
      ensures Valid()
      ensures unchanged(authRepo)
      ensures var users := userUsecase.repo;
        && users.available == old(users.available)
        && r == RegisterResult(cfg, CreateResult(old(users.rows), old(users.nextId), users.available, NewUser(req, salt)), now)
        && users.rows == (if r.Ok? then old(users.rows) + [r.value.user] else old(users.rows))
        && users.nextId == (if users.available then old(users.nextId) + 1 else old(users.nextId))
    {
      var created := userUsecase.CreateUser(req, salt);
      if created.Err? {
        return Err(created.error);
      }
      var user := created.value;
      var pair := GenerateTokens(cfg, TokenUserOf(user), now);
      return Ok(MakeAuthResponse(user, pair));
    }

    /** Find the user by email, check the password, mint both tokens and
        save one new row for the refresh token. */
    method Login(req: LoginRequest, now: int) returns (r: Result<AuthResponse>)
      requires Valid()
      modifies authRepo
      ensures Valid() && authRepo.available == old(authRepo.available)
      ensures r == LoginResult(cfg, userUsecase.repo.rows, userUsecase.repo.available, authRepo.available, req, now)
      ensures authRepo.rows ==
        if r.Ok? then old(authRepo.rows) + [RefreshTokenRow(old(authRepo.nextId), r.value.user.id, r.value.refreshToken, now + RefreshTokenDuration, now)]
        else old(authRepo.rows)
      ensures authRepo.nextId == if r.Ok? then old(authRepo.nextId) + 1 else old(authRepo.nextId)
    {
      var found := userUsecase.GetUserByEmail(req.email);
      if found.Err? {
        return Err(found.error);
      }
      var user := found.value;
      if !VerifyPassword(user.password, req.password) {
        return Err(InvalidEmailOrPassword);
      }
      var pair := GenerateTokens(cfg, TokenUserOf(user), now);
      var saved := authRepo.SaveRefreshToken(user.id, pair.refreshToken, now + RefreshTokenDuration, now);
      if saved.Fail? {
        return Err(saved.error);
      }
      return Ok(MakeAuthResponse(user, pair));
    }

    /** Verify the presented token with the refresh key, insist that the
        store holds it unexpired, mint a new pair from its claims and rotate
        the rows of the claims' user to the new refresh token. */
    method RefreshToken(presented: Token, now: int) returns (r: Result<TokenPair>)
      requires Valid()
      modifies authRepo
      ensures Valid() && authRepo.available == old(authRepo.available) && authRepo.nextId == old(authRepo.nextId)
      ensures r == RefreshResult(cfg, old(authRepo.rows), authRepo.available, presented, now)
      ensures authRepo.rows == RowsAfterRefresh(cfg, old(authRepo.rows), authRepo.available, presented, now)
    {
      var verified := VerifyRefreshToken(cfg, presented, now);
      if verified.Err? {
        return Err(verified.error);
      }
      var user := verified.value;
      var valid := authRepo.IsRefreshToken(presented, now);
      if !valid {
        return Err(InvalidRefreshToken);
      }
      assert authRepo.available && TokenLive(authRepo.rows, presented, now);
      var newAccess := GenerateAccessToken(cfg, user, now);
      var newRefresh := GenerateRefreshToken(cfg, user, now);
      ghost var before := authRepo.rows;
      RefreshSucceeds(cfg, before, presented, now);
      RotateKeepsBound(before, user.id, newRefresh, now + RefreshTokenDuration);
      var updated := authRepo.UpdateRefreshToken(user.id, newRefresh, now + RefreshTokenDuration);
      match updated
      case Fail(e) =>
        return Err(SaveRefreshTokenFailed(e));
      case Pass =>
        assert authRepo.rows == RotateForUser(before, user.id, newRefresh, now + RefreshTokenDuration);
        return Ok(TokenPair(newAccess, newRefresh));
    }

    /** Delete every refresh-token row of the user. */
    method Logout(userId: int) returns (r: Outcome)
      requires Valid()
      modifies authRepo
      ensures Valid() && authRepo.available == old(authRepo.available) && authRepo.nextId == old(authRepo.nextId)
      ensures r == LogoutResult(old(authRepo.rows), authRepo.available, userId)
      ensures authRepo.rows == if r.Pass? then RemoveForUser(old(authRepo.rows), userId) else old(authRepo.rows)
    {
      var deleted := authRepo.DeleteRefreshToken(userId);
      if deleted.Fail? {
        return Fail(DeleteRefreshTokenFailed(deleted.error));
      }
      return Pass;
    }
  }
}
