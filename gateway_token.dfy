/**
 * The API gateway's token check (`validateJWT`): normalise the header value,
 * refuse an empty token and a missing public key, parse with the RSA-only key
 * callback, classify the library's failure and require a subject.
 */
module GatewayToken {
  import opened Wrappers
  import opened GoStrings
  import opened JwtLib

  /** Why `validateJWT` refused a token; one tag per error it can return. */
  datatype Reason =
    | EmptyToken
    | MissingPublicKey
    | Expired
    | NotValidYet
    | SignatureInvalid
    | ValidationFailed(cause: Failure)
    | MissingSubject

  /** `UserClaims`: the subject copied into `UserID`, next to the registered claims. */
  datatype UserClaims = UserClaims(userID: string, registered: Claims)

  // The fixed error texts, kept in short pieces so that their characters can
  // be reasoned about one piece at a time.
  const EmptyTokenText := "token string is empty " + "after trimming Bearer prefix"
  const MissingPublicKeyText := "authentication service " + "is not properly configured " + "(missing public key)"
  const MissingSubjectText := "missing or empty " + "Subject claim in token"
  const WrapPrefix := "token validation failed: "

  /**
   * The text of the returned error (`err.Error()`). The three classified
   * failures are the library's bare sentinels, not the parse error that
   * matched them; only the rest carry the "token validation failed: " prefix.
   */
  function ErrorText(r: Reason): (s: string)
    ensures r == Expired ==> s == "token is expired"
    ensures r == NotValidYet ==> s == "token is not valid yet"
    ensures r == SignatureInvalid ==> s == "token signature is invalid"
    ensures r.ValidationFailed? <==> StartsWith(s, WrapPrefix)
    ensures r.ValidationFailed? ==> s[25..] == FailureText(r.cause)
  {
    match r
    case EmptyToken => assert EmptyTokenText[6] == 's'; EmptyTokenText
    case MissingPublicKey => assert MissingPublicKeyText[0] == 'a'; MissingPublicKeyText
    case Expired => "token is expired"
    case NotValidYet => "token is not valid yet"
    case SignatureInvalid => assert "token signature is invalid"[6] == 's'; "token signature is invalid"
    case MissingSubject => assert MissingSubjectText[0] == 'm'; MissingSubjectText
    case ValidationFailed(f) =>
      assert (WrapPrefix + FailureText(f))[..25] == WrapPrefix;
      WrapPrefix + FailureText(f)
  }

  /** `strings.TrimSpace(strings.TrimPrefix(s, "Bearer"))`. */
  function Normalize(header: string): (r: string)
    ensures r == [] || (!IsSpace(r[0]) && !IsSpace(r[|r| - 1]))
  {
    TrimSpace(TrimPrefix(header, "Bearer"))
  }

  /** A subject claim that is present and not empty. */
  predicate HasSubject(c: Claims)
  {
    c.sub.Some? && c.sub.value != ""
  }

  /**
   * What the token check is meant to accept: a decodable RSA token signed with
   * the configured key, inside its validity window, with a subject.
   */
  predicate Acceptable(t: Token, key: KeyId, now: int)
  {
    && t.wellFormed && t.alg.IsRsa() && t.signer == key
    && !ExpiredAt(t.claims, now) && !NotYetValidAt(t.claims, now)
    && HasSubject(t.claims)
  }

  /**
   * `validateJWT(header)` with the loaded public key (or none), the clock and
   * the library's decoding of the token string.
   */
  function ValidateJwt(header: string, publicKey: Option<KeyId>, now: int, decode: string -> Token)
    : (r: Result<UserClaims, Reason>)
    ensures r == Err(EmptyToken) <==> Normalize(header) == []
    ensures r == Err(MissingPublicKey) <==> Normalize(header) != [] && publicKey.None?
    ensures r.Ok? <==>
      Normalize(header) != [] && publicKey.Some? && Acceptable(decode(Normalize(header)), publicKey.value, now)
    ensures r.Ok? ==>
      var c := decode(Normalize(header)).claims;
      r.value.userID == c.sub.value && r.value.registered == c
    ensures r.Err? && r.error.ValidationFailed? ==>
      && publicKey.Some? && Parse(decode(Normalize(header)), publicKey.value, now) == Err(r.error.cause)
      && !r.error.cause.BadSignature? && !r.error.cause.ClaimsInvalid?
  {
    CheckToken(Normalize(header), publicKey, now, decode)
  }

  /** The guards of `validateJWT` after normalisation. */
  function CheckToken(token: string, publicKey: Option<KeyId>, now: int, decode: string -> Token)
    : (r: Result<UserClaims, Reason>)
    ensures r == Err(EmptyToken) <==> token == []
    ensures r == Err(MissingPublicKey) <==> token != [] && publicKey.None?
    ensures r.Ok? <==> token != [] && publicKey.Some? && Acceptable(decode(token), publicKey.value, now)
    ensures r.Ok? ==> r.value.userID == decode(token).claims.sub.value && r.value.registered == decode(token).claims
    ensures r.Err? && r.error.ValidationFailed? ==>
      && publicKey.Some? && Parse(decode(token), publicKey.value, now) == Err(r.error.cause)
      && !r.error.cause.BadSignature? && !r.error.cause.ClaimsInvalid?
  {
    if token == [] then Err(EmptyToken)
    else if publicKey.None? then Err(MissingPublicKey)
    else
      match Parse(decode(token), publicKey.value, now)
      case Err(ClaimsInvalid(expired, notYetValid)) =>
        if expired then Err(Expired) else Err(NotValidYet)
      case Err(BadSignature) => Err(SignatureInvalid)
      case Err(f) => Err(ValidationFailed(f))
      case Ok(claims) =>
        if !HasSubject(claims) then Err(MissingSubject)
        else Ok(UserClaims(claims.sub.value, claims))
  }

  /** Both the empty header and a bare "Bearer " are refused before any parsing. */
  lemma EmptyAfterTrimming(publicKey: Option<KeyId>, now: int, decode: string -> Token)
    ensures ValidateJwt("", publicKey, now, decode) == Err(EmptyToken)
    ensures ValidateJwt("Bearer ", publicKey, now, decode) == Err(EmptyToken)
  {
    assert TrimPrefix("Bearer ", "Bearer") == " ";
    TrimSpaceOfBlank(" ");
  }

  /** A raw token and the same token after "Bearer " normalise to the raw token. */
  lemma PrefixIsOptional(raw: string)
    requires raw == [] || (!IsSpace(raw[0]) && !IsSpace(raw[|raw| - 1]))
    requires !StartsWith(raw, "Bearer")
    ensures Normalize(raw) == raw
    ensures Normalize("Bearer " + raw) == raw
  {
    TrimSpaceOfTrimmed(raw);
    NormalizeOfBearer(raw);
  }

  lemma NormalizeOfBearer(raw: string)
    requires raw == [] || (!IsSpace(raw[0]) && !IsSpace(raw[|raw| - 1]))
    ensures Normalize("Bearer " + raw) == raw
  {
    var withPrefix := "Bearer " + raw;
    assert TrimPrefix(withPrefix, "Bearer") == " " + raw by {
      assert withPrefix[..6] == "Bearer";
      assert withPrefix[6..] == " " + raw;
    }
    TrimSpaceOfSpaced(raw);
  }

  /** So the prefix never changes the verdict for such a token. */
  lemma PrefixDoesNotChangeVerdict(raw: string, publicKey: Option<KeyId>, now: int, decode: string -> Token)
    requires raw == [] || (!IsSpace(raw[0]) && !IsSpace(raw[|raw| - 1]))
    requires !StartsWith(raw, "Bearer")
    ensures ValidateJwt("Bearer " + raw, publicKey, now, decode) == ValidateJwt(raw, publicKey, now, decode)
  {
    PrefixIsOptional(raw);
  }

  /**
   * A method the key callback refuses (HS256, none, ...) is reported with its
   * name, and the report is never a signature or time failure.
   */
  lemma WrongAlgorithm(header: string, key: KeyId, now: int, decode: string -> Token)
    requires Normalize(header) != []
    requires decode(Normalize(header)).wellFormed
    requires decode(Normalize(header)).alg.Other?
    ensures var name := decode(Normalize(header)).alg.Name();
      && ValidateJwt(header, Some(key), now, decode)
         == Err(ValidationFailed(KeyfuncRejected("unexpected signing method: " + name)))
      && Contains(ErrorText(ValidateJwt(header, Some(key), now, decode).error), "unexpected signing method: " + name)
  {
    var cause := "unexpected signing method: " + decode(Normalize(header)).alg.Name();
    assert ValidateJwt(header, Some(key), now, decode) == Err(ValidationFailed(KeyfuncRejected(cause))) by {
      assert ValidateJwt(header, Some(key), now, decode) == CheckToken(Normalize(header), Some(key), now, decode);
    }
    KeyfuncCauseIsQuoted(cause);
  }

  /**
   * A method the library has no implementation for, or a header without
   * `alg`, is refused before the key callback is asked, and wrapped.
   */
  lemma UnknownAlgorithm(header: string, key: KeyId, now: int, decode: string -> Token)
    requires Normalize(header) != []
    requires decode(Normalize(header)).wellFormed
    requires !decode(Normalize(header)).alg.IsKnown()
    ensures var specified := decode(Normalize(header)).alg.Unavailable?;
      ValidateJwt(header, Some(key), now, decode) == Err(ValidationFailed(UnknownMethod(specified)))
  {
  }

  /** The text of a key-callback refusal quotes the callback's own message. */
  lemma KeyfuncCauseIsQuoted(cause: string)
    ensures Contains(ErrorText(ValidationFailed(KeyfuncRejected(cause))), cause)
  {
    ContainsSuffix("token is unverifiable: error while executing keyfunc: ", cause);
    ContainsInSuffix("token validation failed: ", FailureText(KeyfuncRejected(cause)), cause);
  }

  /** A token signed by any other key pair is a signature failure, whatever its times and subject. */
  lemma ForeignKeyIsBadSignature(header: string, key: KeyId, now: int, decode: string -> Token)
    requires Normalize(header) != []
    requires decode(Normalize(header)).wellFormed && decode(Normalize(header)).alg.IsRsa()
    requires decode(Normalize(header)).signer != key
    ensures ValidateJwt(header, Some(key), now, decode) == Err(SignatureInvalid)
  {
  }

  /** A correctly signed token past its `exp` is expired, even when also not yet valid or without subject. */
  lemma PastExpiryIsExpired(header: string, key: KeyId, now: int, decode: string -> Token)
    requires Normalize(header) != []
    requires var t := decode(Normalize(header)); t.wellFormed && t.alg.IsRsa() && t.signer == key
    requires ExpiredAt(decode(Normalize(header)).claims, now)
    ensures ValidateJwt(header, Some(key), now, decode) == Err(Expired)
  {
  }

  /** Before `nbf` (and not expired) the verdict is NotValidYet. */
  lemma BeforeNotBeforeIsNotValidYet(header: string, key: KeyId, now: int, decode: string -> Token)
    requires Normalize(header) != []
    requires var t := decode(Normalize(header)); t.wellFormed && t.alg.IsRsa() && t.signer == key
    requires !ExpiredAt(decode(Normalize(header)).claims, now)
    requires NotYetValidAt(decode(Normalize(header)).claims, now)
    ensures ValidateJwt(header, Some(key), now, decode) == Err(NotValidYet)
  {
  }

  /** A valid token without a usable subject is refused for that reason alone. */
  lemma NoSubjectIsMissingSubject(header: string, key: KeyId, now: int, decode: string -> Token)
    requires Normalize(header) != []
    requires var t := decode(Normalize(header));
      && t.wellFormed && t.alg.IsRsa() && t.signer == key
      && !ExpiredAt(t.claims, now) && !NotYetValidAt(t.claims, now)
    requires !HasSubject(decode(Normalize(header)).claims)
    ensures ValidateJwt(header, Some(key), now, decode) == Err(MissingSubject)
  {
  }

  /** An undecodable token comes back wrapped as "token validation failed: token is malformed: ...". */
  lemma OtherFailuresAreWrapped(header: string, key: KeyId, now: int, decode: string -> Token)
    requires Normalize(header) != []
    requires !decode(Normalize(header)).wellFormed
    ensures ValidateJwt(header, Some(key), now, decode) == Err(ValidationFailed(Malformed(decode(Normalize(header)).defect)))
    ensures StartsWith(ErrorText(ValidateJwt(header, Some(key), now, decode).error), "token validation failed: ")
  {
  }
}
