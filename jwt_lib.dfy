/**
 * An abstract view of the JSON Web Token library both services call
 * (`jwt.Parse` / `jwt.ParseWithClaims`, golang-jwt v5). Cryptography, base64
 * and JSON are not modelled: a token is the value the library decodes from
 * the compact string, and a signature is valid exactly under the key pair
 * that produced it.
 */
module JwtLib {
  import opened Wrappers
  import opened GoStrings

  /** Identity of an RSA key pair; the public half verifies what the private half signs. */
  type KeyId = nat

  /**
   * The header's `alg`, as far as the callers distinguish it: the three
   * RSASSA-PKCS1-v1_5 methods (section 3.3 of RFC 7518), every other method
   * the library implements (HS256, ES256, PS256, none, ...), a name it has no
   * implementation for, and a header without a string `alg`.
   */
  datatype Alg = RS256 | RS384 | RS512 | Other(name: string) | Unavailable(name: string) | Unspecified
  {
    /** The library's `*jwt.SigningMethodRSA` type covers these three. */
    predicate IsRsa() { RS256? || RS384? || RS512? }

    /** `jwt.GetSigningMethod` finds an implementation. */
    predicate IsKnown() { !Unavailable? && !Unspecified? }

    /** `%v` of the header's `alg`. */
    function Name(): string
    {
      match this
      case RS256 => "RS256"
      case RS384 => "RS384"
      case RS512 => "RS512"
      case Other(n) => n
      case Unavailable(n) => n
      case Unspecified => "<nil>"
    }
  }

  /** Registered claims (section 4.1 of RFC 7519) plus the issuer's `login`; times in Unix seconds. */
  datatype Claims = Claims(
    sub: Option<string>,
    login: Option<string>,
    iat: Option<int>,
    exp: Option<int>,
    nbf: Option<int>)

  /**
   * A decoded token. `wellFormed` is false when the library cannot split the
   * string or decode its header, claims or signature; `defect` is then the
   * library's description of what went wrong. `signer` is the key pair whose
   * private half made the signature.
   */
  datatype Token = Token(wellFormed: bool, defect: string, alg: Alg, signer: KeyId, claims: Claims)

  /** The ways the library's parse fails, in the order it checks them. */
  datatype Failure =
    | Malformed(detail: string)
    | UnknownMethod(specified: bool)
    | KeyfuncRejected(cause: string)
    | BadSignature
    | ClaimsInvalid(expired: bool, notYetValid: bool)

  /** `exp` (section 4.1.4 of RFC 7519): the token may be used only strictly before it. */
  predicate ExpiredAt(c: Claims, now: int)
  {
    c.exp.Some? && now >= c.exp.value
  }

  /** `nbf` (section 4.1.5 of RFC 7519): the token may not be used before it. */
  predicate NotYetValidAt(c: Claims, now: int)
  {
    c.nbf.Some? && now < c.nbf.value
  }

  /**
   * The key callback both services hand to the library: only RSA methods are
   * accepted, and the key returned is always the one configured key.
   */
  function RsaKeyfunc(configured: KeyId, t: Token): (r: Result<KeyId, string>)
    ensures r.Ok? <==> t.alg.IsRsa()
    ensures r.Ok? ==> r.value == configured
    ensures r.Err? ==> r.error == "unexpected signing method: " + t.alg.Name()
  {
    if t.alg.IsRsa() then Ok(configured)
    else Err("unexpected signing method: " + t.alg.Name())
  }

  /**
   * The library's parse: decode, look the method up, ask the key callback,
   * verify the signature with the key it returned, then validate `exp` and
   * `nbf` (both errors are reported together). `iat` is not checked by
   * default.
   */
  function Parse(t: Token, configured: KeyId, now: int): (r: Result<Claims, Failure>)
    ensures r.Ok? <==>
      t.wellFormed && t.alg.IsRsa() && t.signer == configured
      && !ExpiredAt(t.claims, now) && !NotYetValidAt(t.claims, now)
    ensures r.Ok? ==> r.value == t.claims
    ensures r == Err(Malformed(t.defect)) <==> !t.wellFormed
    ensures r.Err? && r.error.UnknownMethod? <==> t.wellFormed && !t.alg.IsKnown()
    ensures r.Err? && r.error.UnknownMethod? ==> r.error.specified == t.alg.Unavailable?
    ensures r.Err? && r.error.KeyfuncRejected? <==> t.wellFormed && t.alg.IsKnown() && !t.alg.IsRsa()
    ensures r.Err? && r.error.KeyfuncRejected? ==> r.error.cause == "unexpected signing method: " + t.alg.Name()
    ensures r == Err(BadSignature) <==>
      t.wellFormed && t.alg.IsRsa() && t.signer != configured
    ensures r.Err? && r.error.ClaimsInvalid? <==>
      && t.wellFormed && t.alg.IsRsa() && t.signer == configured
      && (ExpiredAt(t.claims, now) || NotYetValidAt(t.claims, now))
    ensures r.Err? && r.error.ClaimsInvalid? ==>
      r.error.expired == ExpiredAt(t.claims, now) && r.error.notYetValid == NotYetValidAt(t.claims, now)
  {
    if !t.wellFormed then Err(Malformed(t.defect))
    else if !t.alg.IsKnown() then Err(UnknownMethod(t.alg.Unavailable?))
    else
      match RsaKeyfunc(configured, t)
      case Err(cause) => Err(KeyfuncRejected(cause))
      case Ok(key) =>
        if t.signer != key then Err(BadSignature)
        else if ExpiredAt(t.claims, now) || NotYetValidAt(t.claims, now) then
          Err(ClaimsInvalid(ExpiredAt(t.claims, now), NotYetValidAt(t.claims, now)))
        else Ok(t.claims)
  }

  /** The message RSA verification fails with (`rsa.ErrVerification`). */
  const RsaVerificationError := "crypto/rsa: verification error"

  /**
   * The text of a parse failure: the sentinel's text, then `": "` and the
   * detail; the two claim errors are joined by a newline.
   */
  function FailureText(f: Failure): (s: string)
    ensures f.Malformed? ==> s == "token is malformed: " + f.detail
    ensures f.KeyfuncRejected? ==> s == "token is unverifiable: error while executing keyfunc: " + f.cause
    ensures f.ClaimsInvalid? && f.expired ==> StartsWith(s, "token has invalid claims: token is expired")
  {
    match f
    case Malformed(detail) => "token is malformed: " + detail
    case UnknownMethod(specified) =>
      "token is unverifiable: " + "signing method (alg) is " + (if specified then "unavailable" else "unspecified")
    case KeyfuncRejected(cause) => "token is unverifiable: error while executing keyfunc: " + cause
    case BadSignature => "token signature is invalid: " + RsaVerificationError
    case ClaimsInvalid(expired, notYetValid) =>
      var first := "token has invalid claims: token is expired";
      if expired && notYetValid then
        assert (first + "\ntoken is not valid yet")[..|first|] == first;
        first + "\ntoken is not valid yet"
      else if expired then first
      else "token has invalid claims: token is not valid yet"
  }
}
