/**
 * The API gateway's authentication middleware: refuse a request without an
 * `Authorization` header, otherwise run the token check and either abort with
 * 401 and a message chosen by the refusal reason, or let the request through
 * with `userID` set to the token's subject.
 */
module GatewayMiddleware {
  import opened Wrappers
  import opened GoStrings
  import opened JwtLib
  import opened GatewayToken

  const StatusUnauthorized: int := 401

  /** `AbortWithStatusJSON(status, {"error": message})`, or `c.Set("userID", id); c.Next()`. */
  datatype Outcome = Abort(status: int, message: string) | Proceed(userID: string)

  /** `errors.Is(err, jwt.ErrTokenExpired)`: the bare sentinel, or a wrapped parse error that joins it. */
  predicate IsTokenExpired(r: Reason)
  {
    r.Expired? || (r.ValidationFailed? && r.cause.ClaimsInvalid? && r.cause.expired)
  }

  /** `errors.Is(err, jwt.ErrTokenNotValidYet)`. */
  predicate IsTokenNotValidYet(r: Reason)
  {
    r.NotValidYet? || (r.ValidationFailed? && r.cause.ClaimsInvalid? && r.cause.notYetValid)
  }

  /** `errors.Is(err, jwt.ErrTokenSignatureInvalid)`. */
  predicate IsSignatureInvalid(r: Reason)
  {
    r.SignatureInvalid? || r == ValidationFailed(BadSignature)
  }

  const SigningMethodPhrase := "unexpected signing method"

  /**
   * The message for a refusal: the three sentinel tests (which look through
   * wrapping), then the tests on the error's text, in the middleware's order;
   * anything else is a plain "Invalid token".
   */
  function RefusalMessage(r: Reason): (m: string)
    ensures r.Expired? ==> m == "Token has expired"
    ensures r.NotValidYet? ==> m == "Token not yet valid"
    ensures r.SignatureInvalid? ==> m == "Invalid token signature"
    ensures r.MissingSubject? ==> m == "Invalid token claims (Subject missing)"
    ensures r.EmptyToken? ==> m == "Invalid Authorization header format"
    ensures r.MissingPublicKey? ==> m == "Invalid token"
    ensures r.ValidationFailed? && r.cause.KeyfuncRejected? && Contains(r.cause.cause, SigningMethodPhrase) ==>
      m == "Invalid token (signing method)"
    ensures r.ValidationFailed? && r.cause.UnknownMethod? ==> m == "Invalid token"
    ensures r.ValidationFailed? && r.cause.Malformed? && Contains(r.cause.detail, SigningMethodPhrase) ==>
      m == "Invalid token (signing method)"
    ensures r.ValidationFailed? && r.cause.Malformed? ==>
      m == (if Contains(ErrorText(r), SigningMethodPhrase) then "Invalid token (signing method)" else "Invalid token")
    ensures r == ValidationFailed(BadSignature) ==> m == "Invalid token signature"
    ensures r.ValidationFailed? && r.cause.ClaimsInvalid? && r.cause.expired ==> m == "Token has expired"
    ensures r.ValidationFailed? && r.cause.ClaimsInvalid? && !r.cause.expired && r.cause.notYetValid ==>
      m == "Token not yet valid"
  {
    KeyfuncRefusalQuotesPhrase(r);
    UnwrappedTextsLackPhrase(r);
    ExactTextsIdentifyReason(r);
    if IsTokenExpired(r) then "Token has expired"
    else if IsTokenNotValidYet(r) then "Token not yet valid"
    else if IsSignatureInvalid(r) then "Invalid token signature"
    else if ErrorText(r) == MissingSubjectText then "Invalid token claims (Subject missing)"
    else if Contains(ErrorText(r), SigningMethodPhrase) then "Invalid token (signing method)"
    else if ErrorText(r) == EmptyTokenText then "Invalid Authorization header format"
    else "Invalid token"
  }

  /** A refused method, and a malformed detail that mentions one, reach the phrase test. */
  lemma KeyfuncRefusalQuotesPhrase(r: Reason)
    ensures r.ValidationFailed? && r.cause.KeyfuncRejected? && Contains(r.cause.cause, SigningMethodPhrase) ==>
      Contains(ErrorText(r), SigningMethodPhrase)
    ensures r.ValidationFailed? && r.cause.Malformed? && Contains(r.cause.detail, SigningMethodPhrase) ==>
      Contains(ErrorText(r), SigningMethodPhrase)
  {
    if r.ValidationFailed? && r.cause.KeyfuncRejected? && Contains(r.cause.cause, SigningMethodPhrase) {
      KeyfuncCauseIsQuoted(r.cause.cause);
      ContainsTransitive(ErrorText(r), r.cause.cause, SigningMethodPhrase);
    }
    if r.ValidationFailed? && r.cause.Malformed? && Contains(r.cause.detail, SigningMethodPhrase) {
      ContainsInSuffix("token is malformed: ", r.cause.detail, SigningMethodPhrase);
      ContainsInSuffix("token validation failed: ", FailureText(r.cause), SigningMethodPhrase);
    }
  }

  /**
   * None of the other texts contains the phrase: each lacks either its 'x' or
   * its 'd'.
   */
  lemma UnwrappedTextsLackPhrase(r: Reason)
    ensures r.MissingPublicKey? || r.EmptyToken? || r.NotValidYet? || r.SignatureInvalid?
            || (r.ValidationFailed? && (r.cause.UnknownMethod? || r.cause.BadSignature?))
      ==> !Contains(ErrorText(r), SigningMethodPhrase)
  {
    match r
    case MissingPublicKey => LacksPhrase(MissingPublicKeyText, 'x');
    case EmptyToken => LacksPhrase(EmptyTokenText, 'd');
    case SignatureInvalid => SignatureTextLacksPhrase();
    case ValidationFailed(f) =>
      if f.UnknownMethod? {
        UnknownMethodTextLacksPhrase(f.specified);
      } else if f.BadSignature? {
        WrappedSignatureTextLacksPhrase();
      }
    case _ =>
  }

  lemma SignatureTextLacksPhrase()
    ensures !Contains(ErrorText(SignatureInvalid), SigningMethodPhrase)
  {
    LacksPhrase(ErrorText(SignatureInvalid), 'x');
  }

  lemma WrappedSignatureTextLacksPhrase()
    ensures !Contains(ErrorText(ValidationFailed(BadSignature)), SigningMethodPhrase)
  {
    LacksPhrase(ErrorText(ValidationFailed(BadSignature)), 'x');
  }

  lemma UnknownMethodTextLacksPhrase(specified: bool)
    ensures !Contains(ErrorText(ValidationFailed(UnknownMethod(specified))), SigningMethodPhrase)
  {
    LacksPhrase(ErrorText(ValidationFailed(UnknownMethod(specified))), 'x');
  }

  lemma LacksPhrase(s: string, c: char)
    requires c == 'x' || c == 'd'
    requires c !in s
    ensures !Contains(s, SigningMethodPhrase)
  {
    assert SigningMethodPhrase[3] == 'x' && SigningMethodPhrase[9] == 'd';
    ContainedCharsOccur(s, SigningMethodPhrase, c);
  }

  /** Only the subject and empty-token refusals have those exact texts. */
  lemma ExactTextsIdentifyReason(r: Reason)
    ensures ErrorText(r) == MissingSubjectText <==> r.MissingSubject?
    ensures ErrorText(r) == EmptyTokenText <==> r.EmptyToken?
  {
    var s := ErrorText(r);
    match r
    case ValidationFailed(_) =>
      assert s[..25] == WrapPrefix;
      assert s[0] == 't' && s[6] == 'v';
    case SignatureInvalid =>
      assert s[6] == 's' && s[8] == 'g';
    case MissingPublicKey =>
      assert |s| == 70;
    case _ =>
  }

  /** The middleware's decision for the request's `Authorization` header. */
  function Middleware(header: string, publicKey: Option<KeyId>, now: int, decode: string -> Token)
    : (o: Outcome)
    ensures header == [] ==> o == Abort(StatusUnauthorized, "Missing Authorization token")
    ensures o.Proceed? <==> header != [] && ValidateJwt(header, publicKey, now, decode).Ok?
    ensures o.Proceed? ==> o.userID == ValidateJwt(header, publicKey, now, decode).value.userID
    ensures o.Abort? && header != [] ==>
      o == Abort(StatusUnauthorized, RefusalMessage(ValidateJwt(header, publicKey, now, decode).error))
  {
    if header == [] then Abort(StatusUnauthorized, "Missing Authorization token")
    else
      match ValidateJwt(header, publicKey, now, decode)
      case Err(reason) => Abort(StatusUnauthorized, RefusalMessage(reason))
      case Ok(claims) => Proceed(claims.userID)
  }

  /**
   * On the refusals the token check actually returns, the sentinel tests see
   * only the bare sentinels, so each message is decided by the reason's tag
   * alone.
   */
  lemma MessagesFollowReason(header: string, publicKey: Option<KeyId>, now: int, decode: string -> Token)
    requires ValidateJwt(header, publicKey, now, decode).Err?
    ensures var r := ValidateJwt(header, publicKey, now, decode).error;
      var m := RefusalMessage(r);
      && (r.Expired? <==> m == "Token has expired")
      && (r.NotValidYet? <==> m == "Token not yet valid")
      && (r.SignatureInvalid? <==> m == "Invalid token signature")
      && (r.MissingSubject? <==> m == "Invalid token claims (Subject missing)")
      && (r.EmptyToken? <==> m == "Invalid Authorization header format")
      && (r.ValidationFailed? && r.cause.KeyfuncRejected? ==> m == "Invalid token (signing method)")
      && (r.MissingPublicKey? || (r.ValidationFailed? && r.cause.UnknownMethod?) ==> m == "Invalid token")
  {
    var r := ValidateJwt(header, publicKey, now, decode).error;
    if r.ValidationFailed? && r.cause.KeyfuncRejected? {
      var t := decode(Normalize(header));
      assert r.cause.cause == SigningMethodPhrase + ": " + t.alg.Name();
      assert OccursAt(r.cause.cause, 0, SigningMethodPhrase);
    }
    MessageFollowsTag(r);
  }

  /** The same, for any reason that is not a wrapped signature or claims failure. */
  lemma MessageFollowsTag(r: Reason)
    requires r.ValidationFailed? ==> !r.cause.BadSignature? && !r.cause.ClaimsInvalid?
    requires r.ValidationFailed? && r.cause.KeyfuncRejected? ==> Contains(r.cause.cause, SigningMethodPhrase)
    ensures var m := RefusalMessage(r);
      && (r.Expired? <==> m == "Token has expired")
      && (r.NotValidYet? <==> m == "Token not yet valid")
      && (r.SignatureInvalid? <==> m == "Invalid token signature")
      && (r.MissingSubject? <==> m == "Invalid token claims (Subject missing)")
      && (r.EmptyToken? <==> m == "Invalid Authorization header format")
      && (r.ValidationFailed? && r.cause.KeyfuncRejected? ==> m == "Invalid token (signing method)")
      && (r.MissingPublicKey? || (r.ValidationFailed? && r.cause.UnknownMethod?) ==> m == "Invalid token")
  {
  }

  /** Every refusal is a 401: the status is never changed from Unauthorized. */
  lemma EveryRefusalIsUnauthorized(header: string, publicKey: Option<KeyId>, now: int, decode: string -> Token)
    ensures Middleware(header, publicKey, now, decode).Abort? ==>
      Middleware(header, publicKey, now, decode).status == StatusUnauthorized
  {
  }

  /**
   * A request goes through exactly when the token is acceptable, and then
   * carries the token's subject, which is never empty.
   */
  lemma ProceedsOnlyWithSubject(header: string, key: KeyId, now: int, decode: string -> Token)
    ensures var o := Middleware(header, Some(key), now, decode);
      && (o.Proceed? <==> header != [] && Normalize(header) != [] && Acceptable(decode(Normalize(header)), key, now))
      && (o.Proceed? ==> o.userID == decode(Normalize(header)).claims.sub.value && o.userID != [])
  {
  }

  /** "Bearer " passes the presence check but is answered as a badly formed header. */
  lemma BareBearerHeader(publicKey: Option<KeyId>, now: int, decode: string -> Token)
    ensures Middleware("Bearer ", publicKey, now, decode)
      == Abort(StatusUnauthorized, "Invalid Authorization header format")
  {
    EmptyAfterTrimming(publicKey, now, decode);
  }

  /** Without a loaded public key every non-empty token gets the generic "Invalid token". */
  lemma MissingKeyIsGenericRefusal(header: string, now: int, decode: string -> Token)
    requires Normalize(header) != []
    ensures Middleware(header, None, now, decode) == Abort(StatusUnauthorized, "Invalid token")
  {
  }
}
