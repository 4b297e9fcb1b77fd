/**
 * `ParseIdentifier`: a path parameter naming a user is read as an id when it
 * contains a hyphen and as a login otherwise. The id and login checks it
 * calls are not part of this model and come in as predicates.
 */
module Identifier {
  import opened Wrappers
  import opened GoStrings

  datatype Parsed = Parsed(identifier: string, isUUID: bool, err: Option<string>)

  function ParseIdentifier(identifier: string, validateUserID: string -> bool, validateLogin: string -> bool)
    : (r: Parsed)
    ensures r.isUUID ==> ContainsChar(identifier, '-')
    ensures r.err.Some? ==> r == Parsed("", false, r.err)
    ensures r.err.None? ==> r.identifier == identifier
    ensures ContainsChar(identifier, '-') ==>
      r == if validateUserID(identifier) then Parsed(identifier, true, None)
           else Parsed("", false, Some("invalid UUID format"))
    ensures !ContainsChar(identifier, '-') ==>
      r == if validateLogin(identifier) then Parsed(identifier, false, None)
           else Parsed("", false, Some("invalid login"))
  {
    ContainsOneChar(identifier, '-');
    if Contains(identifier, "-") then
      if !validateUserID(identifier) then Parsed("", false, Some("invalid UUID format"))
      else Parsed(identifier, true, None)
    else
      if !validateLogin(identifier) then Parsed("", false, Some("invalid login"))
      else Parsed(identifier, false, None)
  }

  /** "12345-67890" takes the id branch, so the login check is never asked. */
  lemma HyphenSelectsIdBranch(validateUserID: string -> bool, validateLogin: string -> bool)
    requires !validateUserID("12345-67890")
    ensures ParseIdentifier("12345-67890", validateUserID, validateLogin) == Parsed("", false, Some("invalid UUID format"))
  {
    assert "12345-67890"[5] == '-';
  }

  /** "john_doe" has no hyphen, so the id check is never asked. */
  lemma NoHyphenSelectsLoginBranch(validateUserID: string -> bool, validateLogin: string -> bool)
    requires validateLogin("john_doe")
    ensures ParseIdentifier("john_doe", validateUserID, validateLogin) == Parsed("john_doe", false, None)
  {
    var s := "john_doe";
    forall i | 0 <= i < |s| ensures s[i] != '-' {
      assert s[i] in "john_de";
    }
  }
}
