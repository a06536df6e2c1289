/**
 * The body of PUT /api/users/me and its Bean Validation constraints: both names are required
 * (not blank) and at most 100 characters, the national identity number is required and exactly
 * eleven digits. Validation reports one message key per violated constraint.
 */
module UserUpdateRequest {
  import opened Wrappers
  import opened Text

  datatype Request = Request(firstName: Option<string>, lastName: Option<string>, ssn: Option<string>)

  const MaxNameLength: nat := 100
  const SsnLength: nat := 11

  /** NotBlank: null, empty and whitespace-only values are rejected. */
  predicate Blank(value: Option<string>) {
    value.None? || IsBlank(value.value)
  }

  /** Size(max): a null value passes, a longer string does not. */
  predicate TooLong(value: Option<string>, max: nat) {
    value.Some? && |value.value| > max
  }

  /** The pattern ^\d{11}$ over the whole value: eleven ASCII digits. */
  predicate ElevenDigits(s: string) {
    |s| == SsnLength && AllDigits(s)
  }

  /** Pattern: a null value passes, any other must match. */
  predicate SsnMismatch(value: Option<string>) {
    value.Some? && !ElevenDigits(value.value)
  }

  /** The message keys of every violated constraint. */
  function Violations(r: Request): (v: set<string>)
    ensures "firstName.required" in v <==> Blank(r.firstName)
    ensures "firstName.tooLong" in v <==> TooLong(r.firstName, MaxNameLength)
    ensures "lastName.required" in v <==> Blank(r.lastName)
    ensures "lastName.tooLong" in v <==> TooLong(r.lastName, MaxNameLength)
    ensures "ssn.required" in v <==> Blank(r.ssn)
    ensures "ssn.invalid" in v <==> SsnMismatch(r.ssn)
    ensures v <= {"firstName.required", "firstName.tooLong", "lastName.required", "lastName.tooLong",
                  "ssn.required", "ssn.invalid"}
  {
    (if Blank(r.firstName) then {"firstName.required"} else {})
    + (if TooLong(r.firstName, MaxNameLength) then {"firstName.tooLong"} else {})
    + (if Blank(r.lastName) then {"lastName.required"} else {})
    + (if TooLong(r.lastName, MaxNameLength) then {"lastName.tooLong"} else {})
    + (if Blank(r.ssn) then {"ssn.required"} else {})
    + (if SsnMismatch(r.ssn) then {"ssn.invalid"} else {})
  }

  /** A name that passes both of its constraints. */
  predicate ValidName(name: Option<string>) {
    name.Some? && !IsBlank(name.value) && |name.value| <= MaxNameLength
  }

  /** A request passes validation iff both names are present, not blank and short enough and the ssn is eleven digits. */
  lemma ValidIff(r: Request)
    ensures Violations(r) == {} <==> ValidName(r.firstName) && ValidName(r.lastName) && r.ssn.Some? && ElevenDigits(r.ssn.value)
  {
    if r.ssn.Some? && ElevenDigits(r.ssn.value) {
      DigitsNotBlank(r.ssn.value);
    }
    if Violations(r) == {} {
      assert "firstName.required" !in Violations(r) && "firstName.tooLong" !in Violations(r);
      assert "lastName.required" !in Violations(r) && "lastName.tooLong" !in Violations(r);
      assert "ssn.invalid" !in Violations(r) && "ssn.required" !in Violations(r);
    }
  }

  /** A non-empty string of digits is not blank. */
  lemma DigitsNotBlank(s: string)
    requires |s| > 0 && AllDigits(s)
    ensures !IsBlank(s)
  {
    assert IsDigit(s[0]);
  }

  /** The empty ssn breaks two constraints at once: it is blank and it does not match the pattern. */
  lemma EmptySsnTwoViolations(r: Request)
    requires r.ssn == Some("")
    ensures "ssn.required" in Violations(r) && "ssn.invalid" in Violations(r)
  {
  }
}
