/** The refresh-token table and its repository. Rows are keyed by an
    auto-assigned id; nothing makes user_id unique, so one user may own
    several rows. */
module AuthStore {
  import opened Errors
  import opened Jwt

  /** A row of the refresh-token table; times are Unix seconds. */
  datatype RefreshTokenRow = RefreshTokenRow(id: int, userId: int, token: Token, expiresAt: int, createdAt: int)

  /** Number of rows owned by this user: the rows an UPDATE or DELETE by user_id affects. */
  function CountForUser(rows: seq<RefreshTokenRow>, userId: int): (n: nat)
    ensures n <= |rows|
    ensures n == 0 <==> forall i :: 0 <= i < |rows| ==> rows[i].userId != userId
  {
    if rows == [] then 0
    else
      var rest := CountForUser(rows[1..], userId);
      assert forall i :: 1 <= i < |rows| ==> rows[i] == rows[1..][i - 1];
      (if rows[0].userId == userId then 1 else 0) + rest
  }

  /** Some row holds exactly this token and expires strictly after now. */
  function TokenLive(rows: seq<RefreshTokenRow>, token: Token, now: int): (b: bool)
    ensures b <==> exists i :: 0 <= i < |rows| && rows[i].token == token && rows[i].expiresAt > now
  {
    if rows == [] then false
    else
      var rest := TokenLive(rows[1..], token, now);
      assert forall i :: 1 <= i < |rows| ==> rows[i] == rows[1..][i - 1];
      (rows[0].token == token && rows[0].expiresAt > now) || rest
  }

  /** UPDATE ... SET token, expires_at WHERE user_id = ?: every row of the
      user gets the new token and expiry; every other row and field stays. */
  function RotateForUser(rows: seq<RefreshTokenRow>, userId: int, token: Token, expiresAt: int): (r: seq<RefreshTokenRow>)
    ensures |r| == |rows|
    ensures forall i :: 0 <= i < |rows| ==>
      r[i] == if rows[i].userId == userId then rows[i].(token := token, expiresAt := expiresAt) else rows[i]
  {
    if rows == [] then []
    else
      var head := if rows[0].userId == userId then rows[0].(token := token, expiresAt := expiresAt) else rows[0];
      [head] + RotateForUser(rows[1..], userId, token, expiresAt)
  }

  /** DELETE ... WHERE user_id = ?: the user's rows go, every other row stays in order. */
  function RemoveForUser(rows: seq<RefreshTokenRow>, userId: int): (r: seq<RefreshTokenRow>)
    ensures |r| == |rows| - CountForUser(rows, userId)
    ensures forall row :: row in r <==> row in rows && row.userId != userId
  {
    if rows == [] then []
    else if rows[0].userId == userId then RemoveForUser(rows[1..], userId)
    else [rows[0]] + RemoveForUser(rows[1..], userId)
  }

  /** What UpdateRefreshToken returns, given the table before it. */
  function UpdateOutcome(rows: seq<RefreshTokenRow>, available: bool, userId: int): Outcome
  {
    if !available then Fail(StorageFailure)
    else if CountForUser(rows, userId) == 0 then Fail(RefreshTokenNotFound)
    else Pass
  }

  /** What DeleteRefreshToken returns, given the table before it. */
  function DeleteOutcome(rows: seq<RefreshTokenRow>, available: bool, userId: int): Outcome
  {
    if !available then Fail(StorageFailure)
    else if CountForUser(rows, userId) == 0 then Fail(UserIdNotFound)
    else Pass
  }

  /** A saved row adds one to its owner's count and nothing to anyone else's. */
  lemma {:induction false} CountAfterSave(rows: seq<RefreshTokenRow>, row: RefreshTokenRow, userId: int)
    ensures CountForUser(rows + [row], userId) == CountForUser(rows, userId) + (if row.userId == userId then 1 else 0)
  {
    if rows != [] {
      assert (rows + [row])[1..] == rows[1..] + [row];
      CountAfterSave(rows[1..], row, userId);
    }
  }

  /** Rotation moves no row from one owner to another. */
  lemma {:induction false} RotateKeepsCounts(rows: seq<RefreshTokenRow>, owner: int, token: Token, expiresAt: int, userId: int)
    ensures CountForUser(RotateForUser(rows, owner, token, expiresAt), userId) == CountForUser(rows, userId)
  {
    if rows != [] {
      var r := RotateForUser(rows, owner, token, expiresAt);
      assert r[1..] == RotateForUser(rows[1..], owner, token, expiresAt);
      RotateKeepsCounts(rows[1..], owner, token, expiresAt, userId);
    }
  }

  /** After a rotation all of the user's rows hold the one new token, and
      that token is live until its expiry. */
  lemma RotateUniform(rows: seq<RefreshTokenRow>, userId: int, token: Token, expiresAt: int, now: int)
    requires CountForUser(rows, userId) > 0 && now < expiresAt
    ensures var r := RotateForUser(rows, userId, token, expiresAt);
      && (forall i :: 0 <= i < |r| && r[i].userId == userId ==> r[i].token == token)
      && TokenLive(r, token, now)
  {
    var i :| 0 <= i < |rows| && rows[i].userId == userId;
    assert RotateForUser(rows, userId, token, expiresAt)[i].token == token;
  }

  /** A token that no other user's row holds, and that differs from the new
      one, is dead after the user's rows are rotated. */
  lemma RotateRevokesOthers(rows: seq<RefreshTokenRow>, userId: int, token: Token, expiresAt: int, gone: Token, later: int)
    requires gone != token
    requires forall row :: row in rows && row.userId != userId ==> row.token != gone
    ensures !TokenLive(RotateForUser(rows, userId, token, expiresAt), gone, later)
  {
    var r := RotateForUser(rows, userId, token, expiresAt);
    forall i | 0 <= i < |r| ensures r[i].token != gone {
      assert rows[i] in rows;
    }
  }

  /** The refresh-token table. An unavailable database fails every statement. */
  class AuthRepository {
    var rows: seq<RefreshTokenRow>
    var nextId: int
    var available: bool

    /** Ids come from a sequence: all distinct and below the next value. */
    ghost predicate Valid()
      reads this
    {
      && (forall i :: 0 <= i < |rows| ==> rows[i].id < nextId)
      && DistinctIds(rows)
    }

    constructor (available: bool)
      ensures Valid() && rows == [] && this.available == available
    {
      rows := [];
      nextId := 1;
      this.available := available;
    }

    /** Insert one row; id and created_at are filled in by the database. */
    method SaveRefreshToken(userId: int, token: Token, expiresAt: int, now: int) returns (r: Outcome)
      requires Valid()
      modifies this
      ensures Valid() && available == old(available)
      ensures r == if available then Pass else Fail(StorageFailure)
      ensures rows == if r.Pass? then old(rows) + [RefreshTokenRow(old(nextId), userId, token, expiresAt, now)] else old(rows)
      ensures nextId == if r.Pass? then old(nextId) + 1 else old(nextId)
    {
      if !available {
        return Fail(StorageFailure);
      }
      rows := rows + [RefreshTokenRow(nextId, userId, token, expiresAt, now)];
      nextId := nextId + 1;
      return Pass;
    }

    /** Give every row of the user the new token and expiry; zero rows
        affected is "refresh token not found". */
    method UpdateRefreshToken(userId: int, token: Token, expiresAt: int) returns (r: Outcome)
      requires Valid()
      modifies this
      ensures Valid() && available == old(available) && nextId == old(nextId)
      ensures r == UpdateOutcome(old(rows), available, userId)
      ensures rows == if r.Pass? then RotateForUser(old(rows), userId, token, expiresAt) else old(rows)
    {
      if !available {
        return Fail(StorageFailure);
      }
      if CountForUser(rows, userId) == 0 {
        return Fail(RefreshTokenNotFound);
      }
      rows := RotateForUser(rows, userId, token, expiresAt);
      return Pass;
    }

    /** True iff a row holds exactly this token and has not expired; false on
        any database error, not only when no row matches. */
    function IsRefreshToken(token: Token, now: int): (b: bool)
      reads this
      ensures b <==> available && exists i :: 0 <= i < |rows| && rows[i].token == token && rows[i].expiresAt > now
    {
      available && TokenLive(rows, token, now)
    }

    /** Remove every row of the user; zero rows affected is "user id not found". */
    method DeleteRefreshToken(userId: int) returns (r: Outcome)
      requires Valid()
      modifies this
      ensures Valid() && available == old(available) && nextId == old(nextId)
      ensures r == DeleteOutcome(old(rows), available, userId)
      ensures rows == if r.Pass? then RemoveForUser(old(rows), userId) else old(rows)
    {
      if !available {
        return Fail(StorageFailure);
      }
      if CountForUser(rows, userId) == 0 {
        return Fail(UserIdNotFound);
      }
      ghost var before := rows;
      rows := RemoveForUser(rows, userId);
      RemoveKeepsDistinctIds(before, userId);
      return Pass;
    }
  }

  ghost predicate DistinctIds(rows: seq<RefreshTokenRow>)
  {
    forall i, j :: 0 <= i < j < |rows| ==> rows[i].id != rows[j].id
  }

  /** Removing rows keeps the ids distinct. */
  lemma {:induction false} RemoveKeepsDistinctIds(rows: seq<RefreshTokenRow>, userId: int)
    requires DistinctIds(rows)
    ensures DistinctIds(RemoveForUser(rows, userId))
  {
    if rows != [] {
      assert DistinctIds(rows[1..]) by {
        forall i, j | 0 <= i < j < |rows| - 1 ensures rows[1..][i].id != rows[1..][j].id {
          assert rows[1..][i] == rows[i + 1] && rows[1..][j] == rows[j + 1];
        }
      }
      RemoveKeepsDistinctIds(rows[1..], userId);
      if rows[0].userId != userId {
        var tail := RemoveForUser(rows[1..], userId);
        var r := [rows[0]] + tail;
        forall i, j | 0 <= i < j < |r| ensures r[i].id != r[j].id {
          assert r[j] == tail[j - 1];
          if i == 0 {
            assert r[j] in tail;
            var k :| 1 <= k < |rows| && rows[k] == r[j];
          } else {
            assert r[i] == tail[i - 1];
          }
        }
      }
    }
  }
}
