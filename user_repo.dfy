/**
 * The `users` table as an in-memory sequence of rows. The store assigns the
 * id and the timestamps; they come in as arguments. No uniqueness of login
 * or id is assumed.
 */
module UserRepository {
  import opened Wrappers
  import opened UserModels

  const ErrUserNotFound := "user not found"

  /**
   * The row `WHERE login = $1` yields; with no `ORDER BY` the store may
   * return any of several, and the model takes the first.
   */
  function FindByLogin(rows: seq<User>, login: string): (r: Option<User>)
    ensures r.Some? ==> r.value in rows && r.value.login == login
    ensures r.None? <==> forall u | u in rows :: u.login != login
  {
    if rows == [] then None
    else if rows[0].login == login then Some(rows[0])
    else FindByLogin(rows[1..], login)
  }

  /**
   * The row `WHERE id = $1` yields; among several the model takes the
   * first, as for the login.
   */
  function FindByID(rows: seq<User>, id: string): (r: Option<User>)
    ensures r.Some? ==> r.value in rows && r.value.id == id
    ensures r.None? <==> forall u | u in rows :: u.id != id
  {
    if rows == [] then None
    else if rows[0].id == id then Some(rows[0])
    else FindByID(rows[1..], id)
  }

  /** The columns `Update` writes: the profile fields and `updated_at`. */
  function WithProfile(row: User, from: User, now: int): (r: User)
    ensures r.id == row.id && r.login == row.login && r.passwordHash == row.passwordHash && r.createdAt == row.createdAt
    ensures r.email == from.email && r.firstname == from.firstname && r.surname == from.surname
    ensures r.phone == from.phone && r.bio == from.bio && r.updatedAt == now
  {
    row.(email := from.email, firstname := from.firstname, surname := from.surname,
         phone := from.phone, bio := from.bio, updatedAt := now)
  }

  /** `UPDATE users SET ... WHERE id = $6` applied to every row. */
  function UpdateRows(rows: seq<User>, from: User, now: int): (r: seq<User>)
    ensures |r| == |rows|
    ensures forall i | 0 <= i < |rows| ::
      r[i] == if rows[i].id == from.id then WithProfile(rows[i], from, now) else rows[i]
  {
    seq(|rows|, i requires 0 <= i < |rows| =>
      if rows[i].id == from.id then WithProfile(rows[i], from, now) else rows[i])
  }

  /** `DELETE FROM users WHERE id = $1`. */
  function WithoutID(rows: seq<User>, id: string): (r: seq<User>)
    ensures forall u :: u in r <==> u in rows && u.id != id
    ensures |r| == |rows| <==> forall u | u in rows :: u.id != id
    ensures |r| <= |rows|
  {
    if rows == [] then []
    else if rows[0].id == id then WithoutID(rows[1..], id)
    else [rows[0]] + WithoutID(rows[1..], id)
  }

  /** After an update, the row found by id carries the new profile. */
  lemma {:induction false} UpdateIsVisible(rows: seq<User>, from: User, now: int)
    requires FindByID(rows, from.id).Some?
    ensures FindByID(UpdateRows(rows, from, now), from.id) == Some(WithProfile(FindByID(rows, from.id).value, from, now))
  {
    var r := UpdateRows(rows, from, now);
    if rows[0].id != from.id {
      assert r[1..] == UpdateRows(rows[1..], from, now);
      UpdateIsVisible(rows[1..], from, now);
    }
  }

  /** An update leaves every other user's lookup as it was. */
  lemma {:induction false} UpdateLeavesOthers(rows: seq<User>, from: User, now: int, id: string)
    requires id != from.id
    ensures FindByID(UpdateRows(rows, from, now), id) == FindByID(rows, id)
  {
    if rows != [] {
      assert UpdateRows(rows, from, now)[1..] == UpdateRows(rows[1..], from, now);
      UpdateLeavesOthers(rows[1..], from, now, id);
    }
  }

  /** An update of an id no row has changes nothing. */
  lemma UpdateOfMissingID(rows: seq<User>, from: User, now: int)
    requires FindByID(rows, from.id).None?
    ensures UpdateRows(rows, from, now) == rows
  {
    var r := UpdateRows(rows, from, now);
    forall i | 0 <= i < |rows| ensures r[i] == rows[i] {
      assert rows[i] in rows;
    }
  }

  /** A delete that matches nothing leaves the table as it was. */
  lemma {:induction false} DeleteOfMissingID(rows: seq<User>, id: string)
    requires forall u | u in rows :: u.id != id
    ensures WithoutID(rows, id) == rows
  {
    if rows != [] {
      assert rows[0] in rows;
      assert forall u | u in rows[1..] :: u in rows;
      DeleteOfMissingID(rows[1..], id);
      assert rows == [rows[0]] + rows[1..];
    }
  }

  class UserRepo {
    var rows: seq<User>

    constructor()
      ensures rows == []
    {
      rows := [];
    }

    /**
     * Inserts the user; the store's id and `now()` timestamps overwrite the
     * caller's values in the returned record. There is no login check here.
     */
    method Create(user: User, id: string, now: int) returns (stored: User)
      modifies this
      ensures stored == user.(id := id, createdAt := now, updatedAt := now)
      ensures rows == old(rows) + [stored]
    {
      stored := user.(id := id, createdAt := now, updatedAt := now);
      rows := rows + [stored];
    }

    function GetByLogin(login: string): (r: Result<User, string>)
      reads this
      ensures r.Ok? <==> exists u | u in rows :: u.login == login
      ensures r.Ok? ==> r.value in rows && r.value.login == login
      ensures r.Err? ==> r.error == ErrUserNotFound
    {
      match FindByLogin(rows, login)
      case None => Err(ErrUserNotFound)
      case Some(u) => Ok(u)
    }

    function GetByID(id: string): (r: Result<User, string>)
      reads this
      ensures r.Ok? <==> exists u | u in rows :: u.id == id
      ensures r.Ok? ==> r.value in rows && r.value.id == id
      ensures r.Err? ==> r.error == ErrUserNotFound
    {
      match FindByID(rows, id)
      case None => Err(ErrUserNotFound)
      case Some(u) => Ok(u)
    }

    /**
     * Writes `user`'s profile fields into row `user.id`, with `updated_at`
     * set to `now`; zero rows affected is "user not found".
     */
    method Update(user: User, now: int) returns (err: Option<string>)
      modifies this
      ensures rows == UpdateRows(old(rows), user, now)
      ensures err.None? <==> exists u | u in old(rows) :: u.id == user.id
      ensures err.Some? ==> err.value == ErrUserNotFound && rows == old(rows)
    {
      if FindByID(rows, user.id).None? {
        UpdateOfMissingID(rows, user, now);
        return Some(ErrUserNotFound);
      }
      rows := UpdateRows(rows, user, now);
      err := None;
    }

    /** Removes row `id`; zero rows affected is "user not found". */
    method Delete(id: string) returns (err: Option<string>)
      modifies this
      ensures rows == WithoutID(old(rows), id)
      ensures err.None? <==> exists u | u in old(rows) :: u.id == id
      ensures err.Some? ==> err.value == ErrUserNotFound && rows == old(rows)
      ensures GetByID(id).Err?
    {
      var remaining := WithoutID(rows, id);
      if |remaining| == |rows| {
        DeleteOfMissingID(rows, id);
        return Some(ErrUserNotFound);
      }
      rows := remaining;
      err := None;
    }
  }
}
