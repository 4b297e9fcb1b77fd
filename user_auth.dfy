/**
 * The user service's own token handling: issuing tokens, the session a login
 * opens, and the middleware that guards its routes by token and session.
 */
module UserAuth {
  import opened Wrappers
  import opened GoAny
  import opened GoStrings
  import opened JwtLib
  import opened UserModels
  import opened SessionRepository

  /** `tokenExpireTime`: three minutes, in seconds. */
  const TokenExpireTime: int := 180

  const BearerPrefix := "Bearer "

  /**
   * `TrimBearerPrefix`: drops "Bearer " only when something follows it; every
   * other input comes back unchanged. (The prefix is ASCII, so its length in
   * bytes and in characters agree.)
   */
  function TrimBearerPrefix(token: string): (r: string)
    ensures r != token <==> |token| > |BearerPrefix| && StartsWith(token, BearerPrefix)
    ensures r != token ==> token == BearerPrefix + r && r != []
    ensures |token| - |BearerPrefix| <= |r| <= |token|
    ensures r == token[|token| - |r|..]
  {
    if |token| > |BearerPrefix| && token[..|BearerPrefix|] == BearerPrefix then token[|BearerPrefix|..]
    else token
  }

  /** The empty header and a bare prefix are both left as they are. */
  lemma TrimBearerPrefixExamples()
    ensures TrimBearerPrefix("") == ""
    ensures TrimBearerPrefix("Bearer ") == "Bearer "
    ensures TrimBearerPrefix("Bearer mytoken225") == "mytoken225"
    ensures TrimBearerPrefix("mytoken225") == "mytoken225"
  {
    var withPrefix := "Bearer mytoken225";
    assert withPrefix[..7] == BearerPrefix by {
      assert withPrefix == BearerPrefix + "mytoken225";
    }
    assert TrimBearerPrefix(withPrefix) == "mytoken225" by {
      assert withPrefix == BearerPrefix + "mytoken225";
    }
    var bare := "mytoken225";
    assert bare[0] != BearerPrefix[0];
    assert TrimBearerPrefix(bare) == bare;
  }

  /** A middleware decision: abort with a status and message, or continue with `userID` set to the `sub` claim as found. */
  datatype Outcome = Abort(status: int, message: string) | Proceed(userID: Value)

  /** The `sub` claim as the claim map holds it: a string, or nothing. */
  function SubjectValue(c: Claims): (v: Value)
    ensures c.sub.Some? <==> v.Str?
    ensures c.sub.Some? ==> v == Str(c.sub.value)
  {
    if c.sub.Some? then Str(c.sub.value) else Nil
  }

  /** The session a login opens for `token`, before the store fills in its id and creation time. */
  function NewSession(user: User, token: string, ipAddress: string, now: int): (s: Session)
    ensures s.userId == user.id && s.token == token && s.ipAddress == ipAddress
    ensures s.expiresAt == now + TokenExpireTime
  {
    Session("", user.id, token, 0, now + TokenExpireTime, ipAddress)
  }

  /**
   * The package state of the token handler: the key pair read at start-up and
   * the session table handed over with `SetSessionRepo`.
   */
  class JwtAuth {
    const privateKey: KeyId
    const publicKey: KeyId
    var sessionRepo: SessionRepo?

    constructor(privateKey: KeyId, publicKey: KeyId)
      ensures this.privateKey == privateKey && this.publicKey == publicKey
      ensures sessionRepo == null
    {
      this.privateKey := privateKey;
      this.publicKey := publicKey;
      sessionRepo := null;
    }

    method SetSessionRepo(repo: SessionRepo?)
      modifies this
      ensures sessionRepo == repo
    {
      sessionRepo := repo;
    }

    /**
     * `GenerateToken`: an RS256 token signed with the private key, with claims
     * `sub`, `login`, `iat = now` and `exp = now + 180`.
     */
    function GenerateToken(user: User, now: int): (t: Token)
      ensures t.wellFormed && t.alg == RS256 && t.signer == privateKey
      ensures t.claims.sub == Some(user.id) && t.claims.login == Some(user.login)
      ensures t.claims.iat == Some(now) && t.claims.exp == Some(now + TokenExpireTime)
      ensures t.claims.exp.value > t.claims.iat.value
      ensures t.claims.nbf.None?
    {
      Token(true, "", RS256, privateKey,
            Claims(Some(user.id), Some(user.login), Some(now), Some(now + TokenExpireTime), None))
    }

    /**
     * `CreateSession`: the table must be set (checked first), the address must
     * parse (`ipValid` stands for `net.ParseIP`), and then one row is added.
     */
    method CreateSession(user: User, token: string, ipAddress: string, ipValid: string -> bool, now: int, sessionID: string)
      returns (err: Option<string>)
      modifies sessionRepo
      ensures sessionRepo == null ==> err == Some("session repository is not set")
      ensures sessionRepo != null && !ipValid(ipAddress) ==>
        err == Some("invalid IP address: " + ipAddress) && sessionRepo.rows == old(sessionRepo.rows)
      ensures sessionRepo != null && ipValid(ipAddress) ==>
        && err.None?
        && sessionRepo.rows == old(sessionRepo.rows) + [NewSession(user, token, ipAddress, now).(id := sessionID, createdAt := now)]
    {
      if sessionRepo == null {
        return Some("session repository is not set");
      }
      if !ipValid(ipAddress) {
        return Some("invalid IP address: " + ipAddress);
      }
      var _ := sessionRepo.CreateSession(NewSession(user, token, ipAddress, now), sessionID, now);
      err := None;
    }

    /** `DeleteSession`: hands the token to the table as it is. */
    method DeleteSession(token: string) returns (err: Option<string>)
      requires sessionRepo != null
      modifies sessionRepo
      ensures sessionRepo.rows == WithoutToken(old(sessionRepo.rows), token)
      ensures err.None? <==> exists s | s in old(sessionRepo.rows) :: s.token == token
      ensures err.Some? ==> err.value == ErrSessionNotFound
    {
      err := sessionRepo.DeleteSessionByToken(token);
    }

    /**
     * `JWTAuthMiddleware`: a missing header, then a token the library rejects
     * (only RSA methods, verified with the public key), then a token with no
     * session row, then a session past its expiry; otherwise continue. The
     * session repository is consulted only for a token the library accepts.
     */
    function JWTAuthMiddleware(header: string, now: int, decode: string -> Token): (o: Outcome)
      requires header == [] || Parse(decode(TrimBearerPrefix(header)), publicKey, now).Err? || sessionRepo != null
      reads this, sessionRepo
      ensures header == [] ==> o == Abort(401, "Missing Authorization token")
      ensures header != [] && Parse(decode(TrimBearerPrefix(header)), publicKey, now).Err? ==>
        o == Abort(401, "Invalid token")
      ensures o.Proceed? <==>
        && header != []
        && Parse(decode(TrimBearerPrefix(header)), publicKey, now).Ok?
        && sessionRepo.GetSessionByToken(TrimBearerPrefix(header)).Ok?
        && now <= sessionRepo.GetSessionByToken(TrimBearerPrefix(header)).value.expiresAt
      ensures header != [] && Parse(decode(TrimBearerPrefix(header)), publicKey, now).Ok?
              && sessionRepo.GetSessionByToken(TrimBearerPrefix(header)).Err? ==>
        o == Abort(401, "Session not found")
      ensures header != [] && Parse(decode(TrimBearerPrefix(header)), publicKey, now).Ok?
              && sessionRepo.GetSessionByToken(TrimBearerPrefix(header)).Ok?
              && now > sessionRepo.GetSessionByToken(TrimBearerPrefix(header)).value.expiresAt ==>
        o == Abort(401, "Session expired")
      ensures o.Proceed? ==> o.userID == SubjectValue(decode(TrimBearerPrefix(header)).claims)
      ensures o.Abort? ==> o.status == 401
    {
      if header == [] then Abort(401, "Missing Authorization token")
      else
        var token := TrimBearerPrefix(header);
        match Parse(decode(token), publicKey, now)
        case Err(_) => Abort(401, "Invalid token")
        case Ok(claims) =>
          match sessionRepo.GetSessionByToken(token)
          case Err(_) => Abort(401, "Session not found")
          case Ok(session) =>
            if now > session.expiresAt then Abort(401, "Session expired")
            else Proceed(SubjectValue(claims))
    }
  }
}
