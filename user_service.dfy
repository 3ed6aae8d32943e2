/** The two operations of the user use case that authentication relies on.
    CreateUser hashes the password and inserts the user; GetUserByEmail
    looks the user up by email. */
module UserService {
  import opened Errors
  import opened Credentials
  import opened Users
  import opened UserDto

  /** The row CreateUser asks the table to insert: a zero id, so that the
      database assigns one, and the digest of the password. */
  function NewUser(req: CreateUserRequest, salt: int): User
  {
    User(0, req.username, req.email, HashPassword(req.password, salt))
  }

  class UserUsecase {
    const repo: UserRepository

    constructor (repo: UserRepository)
      ensures this.repo == repo
    {
      this.repo := repo;
    }

    method CreateUser(req: CreateUserRequest, salt: int) returns (r: Result<User>)
      requires repo.Valid()
      modifies repo
      ensures repo.Valid() && repo.available == old(repo.available)
      ensures r == CreateResult(old(repo.rows), old(repo.nextId), repo.available, NewUser(req, salt))
      ensures repo.rows == if r.Ok? then old(repo.rows) + [r.value] else old(repo.rows)
      ensures repo.nextId == if repo.available then old(repo.nextId) + 1 else old(repo.nextId)
    {
      r := repo.Create(NewUser(req, salt));
    }

    /** The user with this email, as the table finds it. */
    function GetUserByEmail(email: string): (r: Result<User>)
      reads repo
      ensures r.Ok? <==> repo.available && exists i :: 0 <= i < |repo.rows| && repo.rows[i].email == email
      ensures r.Ok? ==> r.value in repo.rows && r.value.email == email
      ensures r.Err? ==> r.error == if repo.available then RecordNotFound else StorageFailure
    {
      repo.FindByEmail(email)
    }
  }

  /** A created user stores the requested names and a digest that accepts
      exactly the requested password. */
  lemma CreatedUserAcceptsPassword(rows: seq<User>, nextId: int, available: bool, req: CreateUserRequest, salt: int, candidate: string)
    requires nextId != 0
    requires CreateResult(rows, nextId, available, NewUser(req, salt)).Ok?
    ensures var u := CreateResult(rows, nextId, available, NewUser(req, salt)).value;
      && u.id == nextId && u.username == req.username && u.email == req.email
      && (VerifyPassword(u.password, candidate) <==> candidate == req.password)
  {
    VerifyHashed(req.password, candidate, salt);
  }
}
