/** The user table: rows of User with an auto-assigned primary key and
    unique username and email columns, and the repository over it. */
module Users {
  import opened Errors
  import opened Credentials

  /** A row of the user table; password holds the digest, never the plaintext. */
  datatype User = User(id: int, username: string, email: string, password: Digest)

  /** Two rows that the primary key or a unique column forbids together. */
  predicate Clash(a: User, b: User)
  {
    a.id == b.id || a.username == b.username || a.email == b.email
  }

  /** The table's constraints: no two rows clash. */
  ghost predicate UniqueKeys(rows: seq<User>)
  {
    forall i, j :: 0 <= i < j < |rows| ==> !Clash(rows[i], rows[j])
  }

  /** Some row clashes with the row about to be inserted. */
  predicate InsertClash(rows: seq<User>, u: User)
  {
    exists i :: 0 <= i < |rows| && Clash(rows[i], u)
  }

  /** Some other row (another id) holds the username or email that an update writes. */
  predicate UpdateClash(rows: seq<User>, u: User)
  {
    exists i :: 0 <= i < |rows| && rows[i].id != u.id && (rows[i].username == u.username || rows[i].email == u.email)
  }

  /** The row Create writes: a zero id is replaced by the next value of the id sequence. */
  function Inserted(input: User, nextId: int): User
  {
    if input.id == 0 then input.(id := nextId) else input
  }

  /** What Create returns, given the table before it. */
  function CreateResult(rows: seq<User>, nextId: int, available: bool, input: User): (r: Result<User>)
    requires nextId != 0
    ensures r.Ok? <==> available && !InsertClash(rows, Inserted(input, nextId))
    ensures r.Ok? ==> r.value == Inserted(input, nextId) && r.value.id != 0 && r.value.username == input.username
                      && r.value.email == input.email && r.value.password == input.password
    ensures r.Err? ==> r.error == if available then DuplicateKey else StorageFailure
  {
    if !available then Err(StorageFailure)
    else if InsertClash(rows, Inserted(input, nextId)) then Err(DuplicateKey)
    else Ok(Inserted(input, nextId))
  }

  /** The first row with this email. */
  function FirstWithEmail(rows: seq<User>, email: string): (r: Option<User>)
    ensures r.Some? <==> exists i :: 0 <= i < |rows| && rows[i].email == email
    ensures r.Some? ==> r.value in rows && r.value.email == email
  {
    if rows == [] then None
    else if rows[0].email == email then Some(rows[0])
    else
      var rest := FirstWithEmail(rows[1..], email);
      assert forall i :: 1 <= i < |rows| ==> rows[i] == rows[1..][i - 1];
      rest
  }

  /** The first row with this id. */
  function FirstWithId(rows: seq<User>, id: int): (r: Option<User>)
    ensures r.Some? <==> exists i :: 0 <= i < |rows| && rows[i].id == id
    ensures r.Some? ==> r.value in rows && r.value.id == id
  {
    if rows == [] then None
    else if rows[0].id == id then Some(rows[0])
    else
      var rest := FirstWithId(rows[1..], id);
      assert forall i :: 1 <= i < |rows| ==> rows[i] == rows[1..][i - 1];
      rest
  }

  /** FindByEmail on the table contents: the row with that email, "record
      not found" when there is none, the storage error when the database fails. */
  function FindByEmailResult(rows: seq<User>, available: bool, email: string): (r: Result<User>)
    ensures r.Ok? <==> available && exists i :: 0 <= i < |rows| && rows[i].email == email
    ensures r.Ok? ==> r.value in rows && r.value.email == email
    ensures r.Err? ==> r.error == if available then RecordNotFound else StorageFailure
  {
    if !available then Err(StorageFailure)
    else match FirstWithEmail(rows, email)
      case None => Err(RecordNotFound)
      case Some(u) => Ok(u)
  }

  /** FindByID on the table contents. */
  function FindByIdResult(rows: seq<User>, available: bool, id: int): (r: Result<User>)
    ensures r.Ok? <==> available && exists i :: 0 <= i < |rows| && rows[i].id == id
    ensures r.Ok? ==> r.value in rows && r.value.id == id
    ensures r.Err? ==> r.error == if available then RecordNotFound else StorageFailure
  {
    if !available then Err(StorageFailure)
    else match FirstWithId(rows, id)
      case None => Err(RecordNotFound)
      case Some(u) => Ok(u)
  }

  /** Because emails are unique, the row FindByEmail returns is the one row with that email. */
  lemma {:induction false} FindByEmailUnique(rows: seq<User>, k: int)
    requires UniqueKeys(rows)
    requires 0 <= k < |rows|
    ensures FirstWithEmail(rows, rows[k].email) == Some(rows[k])
  {
    if k > 0 {
      assert rows[0].email != rows[k].email by { assert !Clash(rows[0], rows[k]); }
      assert UniqueKeys(rows[1..]) by {
        forall i, j | 0 <= i < j < |rows| - 1 ensures !Clash(rows[1..][i], rows[1..][j]) {
          assert rows[1..][i] == rows[i + 1] && rows[1..][j] == rows[j + 1];
        }
      }
      FindByEmailUnique(rows[1..], k - 1);
    }
  }

  /** Rows with this id: the rows an UPDATE or DELETE by id affects. */
  function CountWithId(rows: seq<User>, id: int): (n: nat)
    ensures n <= |rows|
    ensures n == 0 <==> forall i :: 0 <= i < |rows| ==> rows[i].id != id
  {
    if rows == [] then 0
    else
      var rest := CountWithId(rows[1..], id);
      assert forall i :: 1 <= i < |rows| ==> rows[i] == rows[1..][i - 1];
      (if rows[0].id == id then 1 else 0) + rest
  }

  /** DELETE ... WHERE id = ?: every row with another id stays, in order. */
  function RemoveWithId(rows: seq<User>, id: int): (r: seq<User>)
    ensures |r| == |rows| - CountWithId(rows, id)
    ensures forall u :: u in r <==> u in rows && u.id != id
  {
    if rows == [] then []
    else if rows[0].id == id then RemoveWithId(rows[1..], id)
    else [rows[0]] + RemoveWithId(rows[1..], id)
  }

  /** Removing rows keeps the table's constraints. */
  lemma {:induction false} RemoveKeepsUnique(rows: seq<User>, id: int)
    requires UniqueKeys(rows)
    ensures UniqueKeys(RemoveWithId(rows, id))
  {
    if rows != [] {
      assert UniqueKeys(rows[1..]) by {
        forall i, j | 0 <= i < j < |rows| - 1 ensures !Clash(rows[1..][i], rows[1..][j]) {
          assert rows[1..][i] == rows[i + 1] && rows[1..][j] == rows[j + 1];
        }
      }
      RemoveKeepsUnique(rows[1..], id);
      if rows[0].id != id {
        var tail := RemoveWithId(rows[1..], id);
        forall u | u in tail ensures !Clash(rows[0], u) {
          var j :| 1 <= j < |rows| && rows[j] == u;
        }
      }
    }
  }

  /** UPDATE by primary key: the row with the input's id becomes the input. */
  function ReplaceWithId(rows: seq<User>, input: User): (r: seq<User>)
    ensures |r| == |rows|
    ensures forall i :: 0 <= i < |rows| ==> r[i] == if rows[i].id == input.id then input else rows[i]
  {
    seq(|rows|, i requires 0 <= i < |rows| => if rows[i].id == input.id then input else rows[i])
  }

  /** After an update by id, finding that id returns the written row, and
      finding any other id returns what it returned before. */
  lemma {:induction false} ReplaceThenFind(rows: seq<User>, input: User, id: int)
    ensures FirstWithId(ReplaceWithId(rows, input), id)
            == if id == input.id && CountWithId(rows, id) > 0 then Some(input) else FirstWithId(rows, id)
  {
    if rows != [] {
      var r := ReplaceWithId(rows, input);
      assert r[1..] == ReplaceWithId(rows[1..], input);
      ReplaceThenFind(rows[1..], input, id);
    }
  }

  /** An insert without a clash keeps the constraints. */
  lemma AppendKeepsUnique(rows: seq<User>, u: User)
    requires UniqueKeys(rows) && !InsertClash(rows, u)
    ensures UniqueKeys(rows + [u])
  {
  }

  /** An update that clashes with no other row keeps the constraints. */
  lemma ReplaceKeepsUnique(rows: seq<User>, input: User)
    requires UniqueKeys(rows) && !UpdateClash(rows, input)
    ensures UniqueKeys(ReplaceWithId(rows, input))
  {
  }

  /** The user table. An unavailable database fails every statement. */
  class UserRepository {
    var rows: seq<User>
    var nextId: int
    var available: bool

    ghost predicate Valid()
      reads this
    {
      UniqueKeys(rows) && nextId > 0
    }

    constructor (available: bool)
      ensures Valid() && rows == [] && nextId == 1 && this.available == available
    {
      rows := [];
      nextId := 1;
      this.available := available;
    }

    /** Insert a row and return it with its id. A zero id draws the next
        value of the sequence, which advances even if the insert then fails. */
    method Create(input: User) returns (r: Result<User>)
      requires Valid()
      modifies this
      ensures Valid() && available == old(available)
      ensures r == CreateResult(old(rows), old(nextId), available, input)
      ensures rows == if r.Ok? then old(rows) + [r.value] else old(rows)
      ensures nextId == if available && input.id == 0 then old(nextId) + 1 else old(nextId)
    {
      if !available {
        return Err(StorageFailure);
      }
      var row := Inserted(input, nextId);
      if input.id == 0 {
        nextId := nextId + 1;
      }
      if InsertClash(rows, row) {
        return Err(DuplicateKey);
      }
      AppendKeepsUnique(rows, row);
      rows := rows + [row];
      return Ok(row);
    }

    /** Delete the row with this id; zero rows affected is "user not found". */
    method Delete(id: int) returns (r: Outcome)
      requires Valid()
      modifies this
      ensures Valid() && available == old(available) && nextId == old(nextId)
      ensures r == if !available then Fail(StorageFailure)
                   else if CountWithId(old(rows), id) == 0 then Fail(UserNotFound)
                   else Pass
      ensures rows == if r.Pass? then RemoveWithId(old(rows), id) else old(rows)
    {
      if !available {
        return Fail(StorageFailure);
      }
      if CountWithId(rows, id) == 0 {
        return Fail(UserNotFound);
      }
      RemoveKeepsUnique(rows, id);
      rows := RemoveWithId(rows, id);
      return Pass;
    }

    /** The row with this email, or "record not found". */
    function FindByEmail(email: string): (r: Result<User>)
      reads this
      ensures r.Ok? <==> available && exists i :: 0 <= i < |rows| && rows[i].email == email
      ensures r.Ok? ==> r.value in rows && r.value.email == email
      ensures r.Err? ==> r.error == if available then RecordNotFound else StorageFailure
    {
      FindByEmailResult(rows, available, email)
    }

    /** The row with this id, or "record not found". */
    function FindByID(id: int): (r: Result<User>)
      reads this
      ensures r.Ok? <==> available && exists i :: 0 <= i < |rows| && rows[i].id == id
      ensures r.Ok? ==> r.value in rows && r.value.id == id
      ensures r.Err? ==> r.error == if available then RecordNotFound else StorageFailure
    {
      FindByIdResult(rows, available, id)
    }

    /** Every row of the table. */
    function ListUsers(): (r: Result<seq<User>>)
      reads this
      ensures r.Ok? <==> available
      ensures r.Ok? ==> multiset(r.value) == multiset(rows)
    {
      if !available then Err(StorageFailure) else Ok(rows)
    }

    /** Overwrite the row with the input's id; zero rows affected is "user not found". */
    method Update(input: User) returns (r: Outcome)
      requires Valid()
      modifies this
      ensures Valid() && available == old(available) && nextId == old(nextId)
      ensures r == if !available then Fail(StorageFailure)
                   else if CountWithId(old(rows), input.id) == 0 then Fail(UserNotFound)
                   else if UpdateClash(old(rows), input) then Fail(DuplicateKey)
                   else Pass
      ensures rows == if r.Pass? then ReplaceWithId(old(rows), input) else old(rows)
    {
      if !available {
        return Fail(StorageFailure);
      }
      if CountWithId(rows, input.id) == 0 {
        return Fail(UserNotFound);
      }
      if UpdateClash(rows, input) {
        return Fail(DuplicateKey);
      }
      ReplaceKeepsUnique(rows, input);
      rows := ReplaceWithId(rows, input);
      return Pass;
    }
  }
}
