/**
 * The `user_sessions` table as an in-memory sequence of rows. The store
 * assigns a row's id and creation time; they come in as arguments.
 */
module SessionRepository {
  import opened Wrappers
  import opened UserModels

  const ErrSessionNotFound := "session not found"

  /**
   * The row a `WHERE token = $1` lookup yields. The query has no `ORDER BY`,
   * so among several rows with the token the store may return any; the model
   * takes the first, and `UniqueTokenFindsItsRow` shows the choice is moot
   * when tokens are unique.
   */
  function FindByToken(rows: seq<Session>, token: string): (r: Option<Session>)
    ensures r.Some? ==> r.value in rows && r.value.token == token
    ensures r.None? <==> forall s | s in rows :: s.token != token
  {
    if rows == [] then None
    else if rows[0].token == token then Some(rows[0])
    else FindByToken(rows[1..], token)
  }

  /** The rows a `DELETE ... WHERE token = $1` leaves, in their order. */
  function WithoutToken(rows: seq<Session>, token: string): (r: seq<Session>)
    ensures forall s :: s in r <==> s in rows && s.token != token
    ensures |r| == |rows| <==> forall s | s in rows :: s.token != token
    ensures |r| <= |rows|
  {
    if rows == [] then []
    else if rows[0].token == token then WithoutToken(rows[1..], token)
    else [rows[0]] + WithoutToken(rows[1..], token)
  }

  /** No two rows share a token. */
  predicate UniqueTokens(rows: seq<Session>)
  {
    forall i, j | 0 <= i < j < |rows| :: rows[i].token != rows[j].token
  }

  /** In a table without duplicate tokens, looking up a row's token finds that row, whatever the order. */
  lemma UniqueTokenFindsItsRow(rows: seq<Session>, s: Session)
    requires UniqueTokens(rows)
    requires s in rows
    ensures FindByToken(rows, s.token) == Some(s)
  {
  }

  /** Deleting one token leaves the lookup of every other token as it was. */
  lemma {:induction false} OtherTokensUnchanged(rows: seq<Session>, token: string, other: string)
    requires other != token
    ensures FindByToken(WithoutToken(rows, token), other) == FindByToken(rows, other)
  {
    if rows != [] {
      OtherTokensUnchanged(rows[1..], token, other);
      if rows[0].token != token {
        assert ([rows[0]] + WithoutToken(rows[1..], token))[1..] == WithoutToken(rows[1..], token);
      }
    }
  }

  /** Deleting a token a second time removes nothing more. */
  lemma {:induction false} DeleteIsIdempotent(rows: seq<Session>, token: string)
    ensures WithoutToken(WithoutToken(rows, token), token) == WithoutToken(rows, token)
  {
    if rows != [] {
      DeleteIsIdempotent(rows[1..], token);
      if rows[0].token != token {
        assert ([rows[0]] + WithoutToken(rows[1..], token))[1..] == WithoutToken(rows[1..], token);
      }
    }
  }

  /**
   * Under the first-row choice, adding a row does not change the lookup of a
   * token that already had one.
   */
  lemma {:induction false} LookupFindsOldestSession(rows: seq<Session>, s: Session, token: string)
    requires FindByToken(rows, token).Some?
    ensures FindByToken(rows + [s], token) == FindByToken(rows, token)
  {
    if rows[0].token != token {
      assert (rows + [s])[1..] == rows[1..] + [s];
      LookupFindsOldestSession(rows[1..], s, token);
    }
  }

  /** A lookup after appending a row for a token no other row has finds that row. */
  lemma {:induction false} LookupFindsNewSession(rows: seq<Session>, s: Session)
    requires FindByToken(rows, s.token).None?
    ensures FindByToken(rows + [s], s.token) == Some(s)
  {
    if rows != [] {
      assert (rows + [s])[1..] == rows[1..] + [s];
      LookupFindsNewSession(rows[1..], s);
    }
  }

  class SessionRepo {
    var rows: seq<Session>

    constructor()
      ensures rows == []
    {
      rows := [];
    }

    /**
     * Inserts the session with the store's `id` and `created_at` and returns
     * it with those written back. The user's other sessions are neither
     * checked nor removed.
     */
    method CreateSession(session: Session, id: string, createdAt: int) returns (stored: Session)
      modifies this
      ensures stored == session.(id := id, createdAt := createdAt)
      ensures rows == old(rows) + [stored]
    {
      stored := session.(id := id, createdAt := createdAt);
      rows := rows + [stored];
    }

    function GetSessionByToken(token: string): (r: Result<Session, string>)
      reads this
      ensures r.Ok? <==> exists s | s in rows :: s.token == token
      ensures r.Ok? ==> r.value in rows && r.value.token == token
      ensures r.Err? ==> r.error == ErrSessionNotFound
    {
      match FindByToken(rows, token)
      case None => Err(ErrSessionNotFound)
      case Some(s) => Ok(s)
    }

    /** Removes every row with the token; none removed is "session not found". */
    method DeleteSessionByToken(token: string) returns (err: Option<string>)
      modifies this
      ensures rows == WithoutToken(old(rows), token)
      ensures err.None? <==> exists s | s in old(rows) :: s.token == token
      ensures err.Some? ==> err.value == ErrSessionNotFound && rows == old(rows)
      ensures GetSessionByToken(token).Err?
    {
      var remaining := WithoutToken(rows, token);
      if |remaining| == |rows| {
        assert remaining == rows by { DeleteLeavesUnmatched(rows, token); }
        return Some(ErrSessionNotFound);
      }
      rows := remaining;
      err := None;
    }
  }

  /** A delete that matches nothing leaves the table as it was. */
  lemma {:induction false} DeleteLeavesUnmatched(rows: seq<Session>, token: string)
    requires forall s | s in rows :: s.token != token
    ensures WithoutToken(rows, token) == rows
  {
    if rows != [] {
      assert rows[0] in rows;
      assert forall s | s in rows[1..] :: s in rows;
      DeleteLeavesUnmatched(rows[1..], token);
      assert rows == [rows[0]] + rows[1..];
    }
  }
}
