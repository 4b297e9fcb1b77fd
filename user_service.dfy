/**
 * The account operations of the user service: registration, login, logout,
 * profile update and deletion, over the user table, the service's session
 * table and the token handler's session table.
 */
module UserService {
  import opened Wrappers
  import opened JwtLib
  import opened UserModels
  import opened UserRepository
  import opened SessionRepository
  import opened UserAuth

  const ErrLoginTaken := "user with this login already exists"
  const ErrInvalidLogin := "invalid login"
  const ErrInvalidPassword := "invalid password"
  const ErrLogout := "failed to delete session"
  const ErrNotRequester := "unauthorized: cannot update another user's profile"

  /** The record `CreateUser` inserts, before the store assigns its id and timestamps. */
  function NewUser(login: string, firstname: string, surname: string, email: string, hash: string): (u: User)
    ensures u.login == login && u.firstname == firstname && u.surname == surname && u.email == email
    ensures u.passwordHash == hash && u.phone == [] && u.bio == []
  {
    User("", login, firstname, surname, email, [], [], hash, 0, 0)
  }

  /** The profile fields `UpdateUser` overwrites on the fetched record, one by one. */
  function EditedProfile(user: User, email: string, firstname: string, surname: string, phone: string, bio: string)
    : (u: User)
    ensures u.email == email && u.firstname == firstname && u.surname == surname && u.phone == phone && u.bio == bio
    ensures u.id == user.id && u.login == user.login && u.passwordHash == user.passwordHash
    ensures u.createdAt == user.createdAt && u.updatedAt == user.updatedAt
  {
    user.(email := email, firstname := firstname, surname := surname, phone := phone, bio := bio)
  }

  class AccountService {
    const repo: UserRepo
    const sessionRepo: SessionRepo
    const auth: JwtAuth

    constructor(repo: UserRepo, sessionRepo: SessionRepo, auth: JwtAuth)
      ensures this.repo == repo && this.sessionRepo == sessionRepo && this.auth == auth
    {
      this.repo := repo;
      this.sessionRepo := sessionRepo;
      this.auth := auth;
    }

    /**
     * `CreateUser` (without the registration event): a taken login is refused
     * before anything is hashed or stored; `bcryptHash` stands for bcrypt. A
     * token is issued for the stored record, and no session is opened.
     */
    method CreateUser(login: string, firstname: string, surname: string, email: string, password: string,
                      bcryptHash: string -> Result<string, string>, userID: string, now: int,
                      encode: Token -> string)
      returns (r: Result<(User, string), string>)
      modifies repo
      ensures old(repo.GetByLogin(login)).Ok? ==> r == Err(ErrLoginTaken) && repo.rows == old(repo.rows)
      ensures old(repo.GetByLogin(login)).Err? && bcryptHash(password).Err? ==>
        r == Err(bcryptHash(password).error) && repo.rows == old(repo.rows)
      ensures r.Ok? <==> old(repo.GetByLogin(login)).Err? && bcryptHash(password).Ok?
      ensures r.Ok? ==>
        var stored := NewUser(login, firstname, surname, email, bcryptHash(password).value)
                        .(id := userID, createdAt := now, updatedAt := now);
        && r.value == (stored, encode(auth.GenerateToken(stored, now)))
        && repo.rows == old(repo.rows) + [stored]
    {
      if repo.GetByLogin(login).Ok? {
        return Err(ErrLoginTaken);
      }
      var hash := bcryptHash(password);
      if hash.Err? {
        return Err(hash.error);
      }
      var user := repo.Create(NewUser(login, firstname, surname, email, hash.value), userID, now);
      var token := auth.GenerateToken(user, now);
      r := Ok((user, encode(token)));
    }

    /**
     * `Login`: an unknown login, then a password that does not match the hash
     * (`matches` stands for bcrypt's comparison); then a token is issued and a
     * session is opened for exactly that token.
     */
    method Login(login: string, password: string, matches: (string, string) -> bool, encode: Token -> string,
                 clientIP: string, ipValid: string -> bool, now: int, sessionID: string)
      returns (r: Result<string, string>)
      modifies auth.sessionRepo
      ensures old(repo.GetByLogin(login)).Err? ==> r == Err(ErrInvalidLogin)
      ensures old(repo.GetByLogin(login)).Ok? && !matches(old(repo.GetByLogin(login)).value.passwordHash, password) ==>
        r == Err(ErrInvalidPassword)
      ensures old(repo.GetByLogin(login)).Ok? && matches(old(repo.GetByLogin(login)).value.passwordHash, password)
              && auth.sessionRepo == null ==>
        r == Err("failed to create session: " + "session repository is not set")
      ensures old(repo.GetByLogin(login)).Ok? && matches(old(repo.GetByLogin(login)).value.passwordHash, password)
              && auth.sessionRepo != null && !ipValid(clientIP) ==>
        r == Err("failed to create session: " + ("invalid IP address: " + clientIP))
      ensures r.Err? && auth.sessionRepo != null ==> auth.sessionRepo.rows == old(auth.sessionRepo.rows)
      ensures r.Ok? <==>
        && old(repo.GetByLogin(login)).Ok?
        && matches(old(repo.GetByLogin(login)).value.passwordHash, password)
        && auth.sessionRepo != null && ipValid(clientIP)
      ensures r.Ok? ==>
        var user := old(repo.GetByLogin(login)).value;
        && r.value == encode(auth.GenerateToken(user, now))
        && auth.sessionRepo.rows ==
             old(auth.sessionRepo.rows) + [NewSession(user, r.value, clientIP, now).(id := sessionID, createdAt := now)]
    {
      var found := repo.GetByLogin(login);
      if found.Err? {
        return Err(ErrInvalidLogin);
      }
      var user := found.value;
      if !matches(user.passwordHash, password) {
        return Err(ErrInvalidPassword);
      }
      var token := encode(auth.GenerateToken(user, now));
      var err := auth.CreateSession(user, token, clientIP, ipValid, now, sessionID);
      if err.Some? {
        return Err("failed to create session: " + err.value);
      }
      r := Ok(token);
    }

    /** `Logout`: strip the bearer prefix, then delete that token's sessions; any failure is one message. */
    method Logout(token: string) returns (err: Option<string>)
      requires auth.sessionRepo != null
      modifies auth.sessionRepo
      ensures auth.sessionRepo.rows == WithoutToken(old(auth.sessionRepo.rows), TrimBearerPrefix(token))
      ensures err.None? <==> exists s | s in old(auth.sessionRepo.rows) :: s.token == TrimBearerPrefix(token)
      ensures err.Some? ==> err.value == ErrLogout
    {
      var e := auth.DeleteSession(TrimBearerPrefix(token));
      err := if e.Some? then Some(ErrLogout) else None;
    }

    /**
     * `UpdateUser`: only the user themself may update; the record is fetched,
     * its profile fields are overwritten and it is written back. The record
     * returned keeps the `updated_at` it was read with.
     */
    method UpdateUser(id: string, email: string, firstname: string, surname: string, phone: string, bio: string,
                      requesterID: string, now: int)
      returns (r: Result<User, string>)
      modifies repo
      ensures id != requesterID ==> r == Err(ErrNotRequester) && repo.rows == old(repo.rows)
      ensures id == requesterID && old(repo.GetByID(id)).Err? ==>
        r == Err(ErrUserNotFound) && repo.rows == old(repo.rows)
      ensures r.Ok? <==> id == requesterID && old(repo.GetByID(id)).Ok?
      ensures r.Ok? ==>
        && r.value == EditedProfile(old(repo.GetByID(id)).value, email, firstname, surname, phone, bio)
        && repo.rows == UpdateRows(old(repo.rows), r.value, now)
    {
      if id != requesterID {
        return Err(ErrNotRequester);
      }
      var found := repo.GetByID(id);
      if found.Err? {
        return Err(found.error);
      }
      var user := found.value;
      user := user.(email := email);
      user := user.(firstname := firstname);
      user := user.(surname := surname);
      user := user.(phone := phone);
      user := user.(bio := bio);
      var err := repo.Update(user, now);
      if err.Some? {
        // the row was just read, so the update finds it
        assert false;
      }
      r := Ok(user);
    }

    /**
     * `DeleteUser`: the session of `token`, as given, is
     * deleted from the service's table first; only if that succeeds is the
     * user row deleted.
     */
    method DeleteUser(id: string, token: string) returns (err: Option<string>)
      modifies sessionRepo, repo
      ensures sessionRepo.rows == WithoutToken(old(sessionRepo.rows), token)
      ensures (forall s | s in old(sessionRepo.rows) :: s.token != token) ==>
        err == Some(ErrSessionNotFound) && repo.rows == old(repo.rows)
      ensures (exists s | s in old(sessionRepo.rows) :: s.token == token) ==>
        && repo.rows == WithoutID(old(repo.rows), id)
        && (err.None? <==> exists u | u in old(repo.rows) :: u.id == id)
        && (err.Some? ==> err.value == ErrUserNotFound)
    {
      err := sessionRepo.DeleteSessionByToken(token);
      if err.Some? {
        return;
      }
      err := repo.Delete(id);
    }
  }
}
