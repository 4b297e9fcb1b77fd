/**
 * How an identity travels: the user service issues a token, the API gateway
 * checks it and forwards the subject as `x-user-id` metadata, and the post
 * service's interceptor turns that metadata back into the caller's id.
 */
module IdentityFlow {
  import opened Wrappers
  import opened GoAny
  import opened GoStrings
  import opened JwtLib
  import opened UserModels
  import UserAuth
  import GatewayToken
  import GatewayMiddleware
  import PostHandlers
  import PostProto
  import Interceptor
  import Strconv

  /**
   * The user service can verify its own token exactly while `now` is before
   * `iat + 180`, provided its two key files are halves of one key pair.
   */
  lemma IssuedTokenLifetime(auth: UserAuth.JwtAuth, user: User, issuedAt: int, now: int)
    requires auth.publicKey == auth.privateKey
    ensures Parse(auth.GenerateToken(user, issuedAt), auth.publicKey, now).Ok?
        <==> now < issuedAt + UserAuth.TokenExpireTime
    ensures now >= issuedAt + UserAuth.TokenExpireTime ==>
      Parse(auth.GenerateToken(user, issuedAt), auth.publicKey, now) == Err(ClaimsInvalid(true, false))
  {
    var t := auth.GenerateToken(user, issuedAt);
    assert !NotYetValidAt(t.claims, now);
  }

  /**
   * A header whose token decodes to a user-service token lets the request
   * through the gateway exactly until the token expires, and the gateway then
   * forwards the user's id.
   */
  lemma GatewayHonoursIssuedHeader(auth: UserAuth.JwtAuth, user: User, issuedAt: int, now: int,
                                   gatewayKey: KeyId, header: string, decode: string -> Token)
    requires header != [] && GatewayToken.Normalize(header) != []
    requires decode(GatewayToken.Normalize(header)) == auth.GenerateToken(user, issuedAt)
    requires gatewayKey == auth.privateKey
    requires user.id != []
    ensures var o := GatewayMiddleware.Middleware(header, Some(gatewayKey), now, decode);
      && (o.Proceed? <==> now < issuedAt + UserAuth.TokenExpireTime)
      && (o.Proceed? ==> o.userID == user.id)
  {
    var t := auth.GenerateToken(user, issuedAt);
    assert GatewayToken.Acceptable(t, gatewayKey, now) <==> now < issuedAt + UserAuth.TokenExpireTime by {
      assert !NotYetValidAt(t.claims, now);
      assert GatewayToken.HasSubject(t.claims);
    }
    GatewayMiddleware.ProceedsOnlyWithSubject(header, gatewayKey, now, decode);
  }

  /** The same for the header `Bearer <token>` a client normally sends. */
  lemma GatewayHonoursIssuedToken(auth: UserAuth.JwtAuth, user: User, issuedAt: int, now: int,
                                  gatewayKey: KeyId, token: string, decode: string -> Token)
    requires decode(token) == auth.GenerateToken(user, issuedAt)
    requires gatewayKey == auth.privateKey
    requires token != [] && !IsSpace(token[0]) && !IsSpace(token[|token| - 1])
    requires user.id != []
    ensures var o := GatewayMiddleware.Middleware("Bearer " + token, Some(gatewayKey), now, decode);
      && (o.Proceed? <==> now < issuedAt + UserAuth.TokenExpireTime)
      && (o.Proceed? ==> o.userID == user.id)
  {
    GatewayToken.NormalizeOfBearer(token);
    GatewayHonoursIssuedHeader(auth, user, issuedAt, now, gatewayKey, "Bearer " + token, decode);
  }

  /** Once it has expired, such a token is refused with "Token has expired". */
  lemma GatewayRefusesExpiredHeader(auth: UserAuth.JwtAuth, user: User, issuedAt: int, now: int,
                                    gatewayKey: KeyId, header: string, decode: string -> Token)
    requires header != [] && GatewayToken.Normalize(header) != []
    requires decode(GatewayToken.Normalize(header)) == auth.GenerateToken(user, issuedAt)
    requires gatewayKey == auth.privateKey
    requires now >= issuedAt + UserAuth.TokenExpireTime
    ensures GatewayMiddleware.Middleware(header, Some(gatewayKey), now, decode)
      == GatewayMiddleware.Abort(401, "Token has expired")
  {
    GatewayToken.PastExpiryIsExpired(header, gatewayKey, now, decode);
  }

  lemma GatewayRefusesExpiredToken(auth: UserAuth.JwtAuth, user: User, issuedAt: int, now: int,
                                   gatewayKey: KeyId, token: string, decode: string -> Token)
    requires decode(token) == auth.GenerateToken(user, issuedAt)
    requires gatewayKey == auth.privateKey
    requires token != [] && !IsSpace(token[0]) && !IsSpace(token[|token| - 1])
    requires now >= issuedAt + UserAuth.TokenExpireTime
    ensures GatewayMiddleware.Middleware("Bearer " + token, Some(gatewayKey), now, decode)
      == GatewayMiddleware.Abort(401, "Token has expired")
  {
    GatewayToken.NormalizeOfBearer(token);
    GatewayRefusesExpiredHeader(auth, user, issuedAt, now, gatewayKey, "Bearer " + token, decode);
  }

  /**
   * The id the gateway lets through reaches the post service's handler intact:
   * `createAuthContext` puts it in the metadata, and the interceptor and
   * `GetUserIDFromContext` read back exactly that id.
   */
  lemma IdentitySurvivesTheHop(header: string, key: KeyId, now: int, decode: string -> Token)
    requires GatewayMiddleware.Middleware(header, Some(key), now, decode).Proceed?
    ensures var id := GatewayMiddleware.Middleware(header, Some(key), now, decode).userID;
      && PostHandlers.CreateAuthContext(Some(Str(id))).Ok?
      && Interceptor.GetUserIDFromContext(Interceptor.HandlerContext(
           Interceptor.Context(Some(PostHandlers.CreateAuthContext(Some(Str(id))).value), None))) == Ok(id)
  {
    var id := GatewayMiddleware.Middleware(header, Some(key), now, decode).userID;
    GatewayMiddleware.ProceedsOnlyWithSubject(header, key, now, decode);
    MetadataRoundTrip(id);
  }

  /** `createAuthContext` and the interceptor are inverse for every non-empty id. */
  lemma MetadataRoundTrip(id: string)
    requires id != []
    ensures PostHandlers.CreateAuthContext(Some(Str(id))).Ok?
    ensures Interceptor.GetUserIDFromContext(Interceptor.HandlerContext(
              Interceptor.Context(Some(PostHandlers.CreateAuthContext(Some(Str(id))).value), None))) == Ok(id)
  {
    var md := PostHandlers.CreateAuthContext(Some(Str(id))).value;
    assert Interceptor.Get(md, Interceptor.UserIDMetadataKey) == [id];
  }

  /**
   * The two services strip the scheme differently: with two spaces after
   * `Bearer` the gateway checks the token itself, while the user service looks
   * up the token with a leading space.
   */
  lemma BearerSpacingDiffers(token: string)
    requires token != [] && !IsSpace(token[0]) && !IsSpace(token[|token| - 1])
    ensures GatewayToken.Normalize("Bearer  " + token) == token
    ensures UserAuth.TrimBearerPrefix("Bearer  " + token) == " " + token
  {
    GatewayTrimsEverySpace(token);
    UserServiceTrimsOneSpace(token);
  }

  lemma GatewayTrimsEverySpace(token: string)
    requires token != [] && !IsSpace(token[0]) && !IsSpace(token[|token| - 1])
    ensures GatewayToken.Normalize("Bearer  " + token) == token
  {
    var h := "Bearer  " + token;
    assert TrimPrefix(h, "Bearer") == "  " + token by {
      assert h[..6] == "Bearer";
      assert h[6..] == "  " + token;
    }
    assert TrimLeftSpace("  " + token) == token by {
      var t := "  " + token;
      assert t[1..] == " " + token;
      assert (" " + token)[1..] == token;
    }
  }

  lemma UserServiceTrimsOneSpace(token: string)
    ensures UserAuth.TrimBearerPrefix("Bearer  " + token) == " " + token
  {
    var h := "Bearer  " + token;
    assert h[..7] == UserAuth.BearerPrefix;
    assert h[7..] == " " + token;
  }

  /**
   * `GetUserPublicPosts` with an unreadable page still forwards a request
   * after the 400 it wrote: page 0, size 0, for the target user.
   */
  lemma UnreadablePageStillForwards()
    ensures PostHandlers.GetUserPublicPosts("u1", Some("abc"), None, Some(Str("me")))
      == PostHandlers.Handled([PostHandlers.Reply(400, PostHandlers.EmptyErrorObject)],
           Some(PostHandlers.Call(map[Interceptor.UserIDMetadataKey := ["me"]],
                                  PostProto.ListPublicPostsRequest(0, 0, Some("u1")))))
  {
    assert PostHandlers.ParsePagination(Some("abc"), None).Err? by {
      assert !Strconv.AllDigits("abc") by { assert !IsAsciiDigit("abc"[0]); }
      assert Strconv.Atoi("abc").None?;
    }
  }
}
