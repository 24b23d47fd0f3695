/** The zod input schemas the RPC layer applies before a handler runs. */
module Validation {
  import opened Wrappers
  import opened Text

  /** The two wallets of `z.enum(['apple', 'google'])`. */
  datatype PassType = Apple | Google

  function PassTypeName(t: PassType): string
  {
    match t
    case Apple => "apple"
    case Google => "google"
  }

  /** The payload of the wallet service's pass-creation webhook, as the
      handler receives it once the schema has accepted it. */
  datatype PassCreationPayload = PassCreationPayload(
    userId: int, passSerialNumber: string, passUrl: string, passType: PassType)

  /** A character of the class `[\d\s\-\(\)]`. */
  predicate PhoneChar(c: char)
  {
    ('0' <= c <= '9') || IsWhitespace(c) || c == '-' || c == '(' || c == ')'
  }

  /** `[\d\s\-\(\)]+` over the whole string. */
  predicate PhoneBody(s: string)
  {
    |s| >= 1 && forall i :: 0 <= i < |s| ==> PhoneChar(s[i])
  }

  /** `/^\+?[\d\s\-\(\)]+$/`: an optional '+' and then the body. */
  predicate PhoneFormat(s: string)
  {
    PhoneBody(s) || (|s| >= 1 && s[0] == '+' && PhoneBody(s[1..]))
  }

  /** Position by position: a '+' is allowed only first, every other
      character is from the class, and at least one of those is present. */
  lemma PhoneFormatByPosition(s: string)
    ensures PhoneFormat(s) <==>
      && |s| >= 1 && s != "+"
      && forall i :: 0 <= i < |s| ==> PhoneChar(s[i]) || (i == 0 && s[i] == '+')
  {
    if |s| >= 1 && s[0] == '+' {
      assert forall i :: 1 <= i < |s| ==> s[1..][i - 1] == s[i];
      assert !PhoneChar(s[0]);
      if s != "+" {
        assert |s| >= 2;
      }
    }
  }

  /** A letter, an interior '+', or any other character outside the class
      makes the number invalid, as does a string with no digit position. */
  lemma PhoneRejects(s: string, i: nat)
    requires i < |s| && !PhoneChar(s[i]) && !(i == 0 && s[i] == '+')
    ensures !PhoneFormat(s)
    ensures !PhoneFormat("") && !PhoneFormat("+")
  {
    PhoneFormatByPosition(s);
    PhoneFormatByPosition("+");
  }

  /** createUserInputSchema: the issues zod reports, in field order. Names
      are checked by length only, so white space alone passes. */
  function CreateUserInputIssues(firstName: string, lastName: string, phoneNumber: string): (issues: seq<string>)
    ensures issues == [] <==> |firstName| >= 1 && |lastName| >= 1 && PhoneFormat(phoneNumber)
    ensures "First name is required" in issues <==> firstName == ""
    ensures "Last name is required" in issues <==> lastName == ""
    ensures "Invalid phone number format" in issues <==> !PhoneFormat(phoneNumber)
  {
    (if |firstName| < 1 then ["First name is required"] else [])
    + (if |lastName| < 1 then ["Last name is required"] else [])
    + (if PhoneFormat(phoneNumber) then [] else ["Invalid phone number format"])
  }

  /** recordVisitInputSchema: the serial must be non-empty. */
  function RecordVisitInputIssues(passSerialNumber: string): (issues: seq<string>)
    ensures issues == [] <==> passSerialNumber != ""
    ensures issues != [] ==> issues == ["Pass serial number is required"]
  {
    if |passSerialNumber| < 1 then ["Pass serial number is required"] else []
  }

  /** The enum member a raw `pass_type` names, if any. */
  function ParsePassType(s: string): (r: Option<PassType>)
    ensures r.Some? <==> s == "apple" || s == "google"
    ensures r.Some? ==> PassTypeName(r.value) == s
  {
    if s == "apple" then Some(Apple)
    else if s == "google" then Some(Google)
    else None
  }

  /** Each wallet's name parses back to that wallet. */
  lemma PassTypeRoundTrip(t: PassType)
    ensures ParsePassType(PassTypeName(t)) == Some(t)
  {
  }

  /** passCreationWebhookSchema: the payload is accepted iff `pass_type`
      names one of the two wallets; the other fields are unconstrained
      strings and a number, passed through unchanged. */
  function ParsePassCreationPayload(userId: int, passSerialNumber: string, passUrl: string, passType: string)
    : (r: Option<PassCreationPayload>)
    ensures r.Some? <==> passType == "apple" || passType == "google"
    ensures r.Some? ==>
      && r.value.userId == userId && r.value.passSerialNumber == passSerialNumber
      && r.value.passUrl == passUrl && PassTypeName(r.value.passType) == passType
  {
    match ParsePassType(passType)
    case None => None
    case Some(t) => Some(PassCreationPayload(userId, passSerialNumber, passUrl, t))
  }
}
