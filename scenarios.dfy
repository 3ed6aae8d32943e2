/** Client sessions against the wired-up services, as the HTTP handlers
    would drive them: the clock readings and the bcrypt salt are chosen here. */
module Scenarios {
  import opened Errors
  import opened Jwt
  import opened Credentials
  import opened Users
  import opened UserDto
  import opened UserService
  import opened AuthStore
  import opened Auth

  const AliceEmail: string := "alice@example.com"
  const AlicePassword: string := "pass1234"
  const AliceSalt: int := 42
  const T0: int := 1700000000

  /** The row registration stores for alice: the first id and her digest. */
  function AliceRow(): User
  {
    User(1, "alice", AliceEmail, HashPassword(AlicePassword, AliceSalt))
  }

  /** Wire the use cases over two empty, available tables and register alice. */
  method SetUpAlice() returns (auth: AuthUsecase)
    ensures fresh(auth.authRepo) && fresh(auth.userUsecase.repo)
    ensures auth.Valid() && auth.cfg == DefaultTokenConfig()
    ensures auth.authRepo.rows == [] && auth.authRepo.available
    ensures auth.userUsecase.repo.rows == [AliceRow()] && auth.userUsecase.repo.available
    ensures auth.userUsecase.repo.nextId == 2
  {
    var users := new UserRepository(true);
    var userUsecase := new UserUsecase(users);
    var store := new AuthRepository(true);
    auth := new AuthUsecase(DefaultTokenConfig(), store, userUsecase);
    var registered := auth.Register(CreateUserRequest("alice", AliceEmail, AlicePassword, AlicePassword), AliceSalt, T0);
  }

  /** With alice's row in the user table, her credentials log her in. */
  lemma AliceLogsIn(now: int)
    ensures LoginResult(DefaultTokenConfig(), [AliceRow()], true, true, LoginRequest(AliceEmail, AlicePassword), now)
         == Ok(MakeAuthResponse(AliceRow(), GenerateTokens(DefaultTokenConfig(), TokenUserOf(AliceRow()), now)))
  {
    assert FirstWithEmail([AliceRow()], AliceEmail) == Some(AliceRow());
  }

  /** Log alice in, then refresh a minute later. Afterwards her one row holds
      the new refresh token and the first one is dead. */
  method LoginThenRefresh(auth: AuthUsecase) returns (login: Result<AuthResponse>, refreshed: Result<TokenPair>)
    requires auth.Valid() && auth.cfg == DefaultTokenConfig()
    requires auth.authRepo.rows == [] && auth.authRepo.available
    requires auth.userUsecase.repo.rows == [AliceRow()] && auth.userUsecase.repo.available
    modifies auth.authRepo
    ensures auth.Valid() && auth.authRepo.available
    ensures login.Ok? && login.value.user == AliceRow()
    ensures refreshed.Ok? && refreshed.value.refreshToken != login.value.refreshToken
    ensures |auth.authRepo.rows| == 1 && auth.authRepo.rows[0].userId == 1
    ensures auth.authRepo.rows[0].token == refreshed.value.refreshToken
    ensures !TokenLive(auth.authRepo.rows, login.value.refreshToken, T0 + 120)
    ensures VerifyRefreshToken(auth.cfg, login.value.refreshToken, T0 + 120).Ok?
    ensures VerifyRefreshToken(auth.cfg, refreshed.value.refreshToken, T0 + 180).Ok?
  {
    AliceLogsIn(T0);
    login := auth.Login(LoginRequest(AliceEmail, AlicePassword), T0);
    var first := login.value.refreshToken;
    var alice := TokenUserOf(AliceRow());
    assert auth.authRepo.rows[0].token == first;
    GenerateThenVerify(alice, auth.cfg.refreshKey, RefreshTokenDuration, T0, T0 + 60);
    ghost var loggedIn := auth.authRepo.rows;
    refreshed := auth.RefreshToken(first, T0 + 60);
    RefreshSucceeds(auth.cfg, loggedIn, first, T0 + 60);
    LaterRefreshRevokes(auth.cfg, loggedIn, true, alice, T0, T0 + 60, T0 + 120);
    GenerateThenVerify(alice, auth.cfg.refreshKey, RefreshTokenDuration, T0, T0 + 120);
    GenerateThenVerify(alice, auth.cfg.refreshKey, RefreshTokenDuration, T0 + 60, T0 + 180);
  }

  /** Log alice in, refresh a minute later, replay the old refresh token,
      log out, and refresh once more with the newest token. */
  method RotationSession() returns (login: Result<AuthResponse>, refreshed: Result<TokenPair>,
                                    replayed: Result<TokenPair>, loggedOut: Outcome, afterLogout: Result<TokenPair>)
    ensures login.Ok? && login.value.user.id == 1 && login.value.user.email == AliceEmail
    ensures refreshed.Ok? && refreshed.value.refreshToken != login.value.refreshToken
    ensures replayed == Err(InvalidRefreshToken)
    ensures loggedOut == Pass
    ensures afterLogout == Err(InvalidRefreshToken)
  {
    var auth := SetUpAlice();
    login, refreshed := LoginThenRefresh(auth);
    replayed := auth.RefreshToken(login.value.refreshToken, T0 + 120);
    ghost var rotated := auth.authRepo.rows;
    loggedOut := auth.Logout(1);
    LogoutRevokes(auth.cfg, rotated, true, 1, refreshed.value.refreshToken, true, T0 + 180);
    afterLogout := auth.RefreshToken(refreshed.value.refreshToken, T0 + 180);
  }

  /** A wrong password is refused without touching the refresh-token table;
      registering the same email again hits the unique index. */
  method RejectionSession() returns (wrong: Result<AuthResponse>, again: Result<AuthResponse>, storeRows: nat)
    ensures wrong == Err(InvalidEmailOrPassword)
    ensures again == Err(DuplicateKey)
    ensures storeRows == 0
  {
    var auth := SetUpAlice();
    assert FirstWithEmail([AliceRow()], AliceEmail) == Some(AliceRow());
    wrong := auth.Login(LoginRequest(AliceEmail, "wrong"), T0 + 10);
    var other := CreateUserRequest("alice2", AliceEmail, "pass5678", "pass5678");
    again := auth.Register(other, 43, T0 + 20);
    assert Clash(AliceRow(), Inserted(NewUser(other, 43), 2));
    storeRows := |auth.authRepo.rows|;
  }

  /** Two logins of the same user leave two rows in the refresh-token table,
      and both tokens stay usable: there is no one-row-per-user rule. */
  method TwoDeviceSession() returns (rowsForAlice: nat, firstLive: bool, secondLive: bool)
    ensures rowsForAlice == 2 && firstLive && secondLive
  {
    var auth := SetUpAlice();
    AliceLogsIn(T0);
    var phone := auth.Login(LoginRequest(AliceEmail, AlicePassword), T0);
    ghost var afterPhone := auth.authRepo.rows;
    AliceLogsIn(T0 + 30);
    var laptop := auth.Login(LoginRequest(AliceEmail, AlicePassword), T0 + 30);
    ghost var both := auth.authRepo.rows;
    assert afterPhone == [] + [afterPhone[0]];
    assert both == afterPhone + [both[1]];
    CountAfterSave([], afterPhone[0], 1);
    CountAfterSave(afterPhone, both[1], 1);
    rowsForAlice := CountForUser(auth.authRepo.rows, 1);
    assert both[0].token == phone.value.refreshToken && both[1].token == laptop.value.refreshToken;
    firstLive := auth.authRepo.IsRefreshToken(phone.value.refreshToken, T0 + 60);
    secondLive := auth.authRepo.IsRefreshToken(laptop.value.refreshToken, T0 + 60);
  }
}
