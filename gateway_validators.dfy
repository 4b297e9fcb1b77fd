/**
 * The API gateway's `utils` validators: user and post identifiers must be
 * non-empty UUID strings, page numbers positive decimal integers.
 */
module GatewayValidators {
  import opened Wrappers
  import opened GoAny
  import opened Grpc
  import opened Strconv
  import opened GoStrings

  const ErrInvalidUserID: Error := StatusError(Internal, "internal error: invalid user ID format in context")
  const ErrInvalidPage: Error := PlainError("page must be a positive integer")
  const ErrInvalidPageSize: Error := PlainError("page_size must be a positive integer")
  const ErrInvalidPostID: Error := StatusError(Internal, "internal error: invalid post ID format")

  predicate IsHexDigit(c: char)
  {
    '0' <= c <= '9' || 'a' <= c <= 'f' || 'A' <= c <= 'F'
  }

  predicate IsHyphenPosition(i: int)
  {
    i == 8 || i == 13 || i == 18 || i == 23
  }

  /**
   * The text form of section 3 of RFC 4122: 8-4-4-4-12 hexadecimal digits
   * separated by hyphens, in either letter case.
   */
  predicate IsUuid(s: string)
  {
    |s| == 36 && forall i :: 0 <= i < 36 ==> if IsHyphenPosition(i) then s[i] == '-' else IsHexDigit(s[i])
  }

  /** `ValidateUserID`: nil error exactly for a string holding a UUID. */
  function ValidateUserID(v: Value): (r: Option<Error>)
    ensures r.None? <==> v.Str? && IsUuid(v.s)
    ensures r.Some? ==> r.value == ErrInvalidUserID
  {
    match v
    case Str(s) => if s == [] then Some(ErrInvalidUserID) else if !IsUuid(s) then Some(ErrInvalidUserID) else None
    case _ => Some(ErrInvalidUserID)
  }

  /** `ValidatePostID`: nil error exactly for a string holding a UUID. */
  function ValidatePostID(v: Value): (r: Option<Error>)
    ensures r.None? <==> v.Str? && IsUuid(v.s)
    ensures r.Some? ==> r.value == ErrInvalidPostID
  {
    match v
    case Str(s) => if s == [] then Some(ErrInvalidPostID) else if !IsUuid(s) then Some(ErrInvalidPostID) else None
    case _ => Some(ErrInvalidPostID)
  }

  /** `ValidatePage`: `(n, nil)` for a decimal integer n >= 1, otherwise `(0, ErrInvalidPage)`. */
  function ValidatePage(text: string): (r: (int, Option<Error>))
    ensures r.1.None? <==> Atoi(text).Some? && Atoi(text).value >= 1
    ensures r.1.None? ==> r.0 == Atoi(text).value && r.0 >= 1
    ensures r.1.Some? ==> r == (0, Some(ErrInvalidPage))
  {
    match Atoi(text)
    case Some(n) => if n < 1 then (0, Some(ErrInvalidPage)) else (n, None)
    case None => (0, Some(ErrInvalidPage))
  }

  /**
   * `ValidatePageSize`: accepts exactly what ValidatePage accepts, and its
   * error is also ErrInvalidPage (not ErrInvalidPageSize).
   */
  function ValidatePageSize(text: string): (r: (int, Option<Error>))
    ensures r.1.None? <==> Atoi(text).Some? && Atoi(text).value >= 1
    ensures r.1.None? ==> r.0 == Atoi(text).value
    ensures r.1.Some? ==> r == (0, Some(ErrInvalidPage)) && r.1.value != ErrInvalidPageSize
  {
    match Atoi(text)
    case Some(n) => if n < 1 then (0, Some(ErrInvalidPage)) else (n, None)
    case None => (0, Some(ErrInvalidPage))
  }

  /** Round-tripping a number through its decimal text, the page check is just "n >= 1". */
  lemma ValidatePageOfItoa(n: int)
    requires MinInt64 <= n <= MaxInt64
    ensures ValidatePage(Itoa(n)) == if n >= 1 then (n, None) else (0, Some(ErrInvalidPage))
  {
    AtoiOfItoa(n);
  }

  /** Examples from the validator's tests: "0", "-3" and "abc" fail, "100000" passes. */
  lemma PageExamples()
    ensures ValidatePage("0").1.Some? && ValidatePage("-3").1.Some? && ValidatePage("abc").1.Some?
    ensures ValidatePage("100000") == (100000, None)
  {
    ValidatePageOfItoa(0);
    ValidatePageOfItoa(-3);
    ValidatePageOfItoa(100000);
    assert Digits(1) == "1";
    assert Digits(10) == "10";
    assert Digits(100) == "100";
    assert Digits(1000) == "1000";
    assert Digits(10000) == "10000";
    assert Itoa(100000) == "100000";
    assert !AllDigits("abc") by { assert !IsAsciiDigit("abc"[0]); }
  }
}
