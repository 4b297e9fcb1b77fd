/**
 * The user service's custom field validators, registered with the struct
 * validator: a field that is not a string fails both.
 */
module UserValidators {
  import opened GoAny
  import opened GoStrings
  import opened Strconv

  /** The language of `^\+?[0-9]{7,15}$`: an optional plus, then 7 to 15 ASCII digits, and nothing else. */
  predicate PhonePattern(s: string)
  {
    var body := if s != [] && s[0] == '+' then s[1..] else s;
    7 <= |body| <= 15 && AllDigits(body)
  }

  /** The digit loop of the pattern's automaton, having read `count` digits. */
  function MatchDigits(s: string, count: nat): (m: bool)
    ensures m <==> 7 <= count + |s| <= 15 && AllDigits(s)
  {
    if s == [] then 7 <= count <= 15
    else IsAsciiDigit(s[0]) && count < 15 && MatchDigits(s[1..], count + 1)
  }

  /** The anchored match: an optional `+`, then the digit loop from zero. */
  function MatchPhone(s: string): (m: bool)
    ensures m <==> PhonePattern(s)
  {
    if s != [] && s[0] == '+' then MatchDigits(s[1..], 0) else MatchDigits(s, 0)
  }

  function PhoneValidator(field: Value): (ok: bool)
    ensures ok <==> field.Str? && PhonePattern(field.s)
  {
    match field
    case Str(phone) => MatchPhone(phone)
    case _ => false
  }

  /** An unanchored search for `[lo-hi]`. */
  function HasCharIn(s: string, lo: char, hi: char): (found: bool)
    ensures found <==> exists i | 0 <= i < |s| :: lo <= s[i] <= hi
  {
    if s == [] then false
    else if lo <= s[0] <= hi then true
    else
      var found := HasCharIn(s[1..], lo, hi);
      assert found <==> exists i | 1 <= i < |s| :: lo <= s[i] <= hi by {
        forall i | 1 <= i < |s| ensures s[i] == s[1..][i - 1] { }
      }
      found
  }

  /**
   * `PasswordValidator`: 8 to 24 bytes of UTF-8, with at least one ASCII lower
   * case letter, one upper case letter and one digit.
   */
  function PasswordValidator(field: Value): (ok: bool)
    ensures ok <==>
      && field.Str?
      && 8 <= Utf8Len(field.s) <= 24
      && (exists i | 0 <= i < |field.s| :: 'a' <= field.s[i] <= 'z')
      && (exists i | 0 <= i < |field.s| :: 'A' <= field.s[i] <= 'Z')
      && (exists i | 0 <= i < |field.s| :: '0' <= field.s[i] <= '9')
  {
    match field
    case Str(password) =>
      var n := Utf8Len(password);
      if n < 8 || n > 24 then false
      else HasCharIn(password, 'a', 'z') && HasCharIn(password, 'A', 'Z') && HasCharIn(password, '0', '9')
    case _ => false
  }

  /** The digits of the accepted examples. */
  lemma TenDigits()
    ensures AllDigits("1234567890")
  {
    var digits := "1234567890";
    forall i | 0 <= i < |digits| ensures IsAsciiDigit(digits[i]) {
      assert digits[i] in "0123456789";
    }
  }

  lemma PhoneAccepted()
    ensures PhoneValidator(Str("+1234567890"))
    ensures PhoneValidator(Str("1234567890"))
  {
    TenDigits();
    assert "+1234567890"[1..] == "1234567890";
  }

  lemma PhoneRejected()
    ensures !PhoneValidator(Str("12345"))
    ensures !PhoneValidator(Str("12345678901234567"))
    ensures !PhoneValidator(Str("abc1234567"))
    ensures !PhoneValidator(Str(";hello world"))
    ensures !PhoneValidator(Str(""))
    ensures !PhoneValidator(Int(1234567890))
  {
    assert !IsAsciiDigit("abc1234567"[0]);
    assert !IsAsciiDigit(";hello world"[0]);
  }

  lemma PasswordAccepted()
    ensures PasswordValidator(Str("Password123"))
  {
    var p := "Password123";
    assert Utf8Len(p) == 11 by {
      forall i | 0 <= i < |p| ensures p[i] as int < 0x80 {
        assert p[i] in "Padorsw123";
      }
    }
    assert 'a' <= p[1] <= 'z' && 'A' <= p[0] <= 'Z' && '0' <= p[8] <= '9';
  }

  lemma PasswordRejectedForLength()
    ensures !PasswordValidator(Str("Pwd1"))
    ensures !PasswordValidator(Str("Password12345678901234567890"))
    ensures !PasswordValidator(Bool(true))
  {
  }

  lemma PasswordNeedsUpper()
    ensures !PasswordValidator(Str("password123"))
  {
    assert !HasCharIn("password123", 'A', 'Z');
  }

  lemma PasswordNeedsLower()
    ensures !PasswordValidator(Str("PASSWORD123"))
  {
    assert !HasCharIn("PASSWORD123", 'a', 'z');
  }

  lemma PasswordNeedsDigit()
    ensures !PasswordValidator(Str("Password"))
  {
    assert !HasCharIn("Password", '0', '9');
  }
}
