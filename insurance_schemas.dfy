/**
 * The zod schemas of the insurance profile form in both frontends. Issues are reported field by
 * field and, within a field, check by check; zod runs every check of a string even after one
 * failed. The phone pattern is modelled twice: as the regular expression literal is written, and
 * as its message says it was meant.
 */
module InsuranceSchemas {
  import opened Text
  import opened AuthSchemas

  const FirstNameRequired: string := "Fornavn er påkrevd"
  const LastNameRequired: string := "Etternavn er påkrevd"
  const SsnFormat: string := "Fødselsnummer må være 11 siffer"
  const PhoneRequired: string := "Telefon er påkrevd"
  const PhoneFormat: string := "Telefonnummer må være 8-15 sifre og kan starte med +"

  datatype InsuranceProfileForm = InsuranceProfileForm(firstName: string, lastName: string, ssn: string, phone: string)
  datatype BasicProfileForm = BasicProfileForm(firstName: string, lastName: string, ssn: string)

  /** /^\d{11}$/: exactly eleven ASCII digits, nothing before or after. */
  predicate IsSsn(s: string) {
    |s| == 11 && AllDigits(s)
  }

  /** The input without the optional leading '+' that [+]? takes. */
  function AfterPlus(s: string): (r: string)
    ensures |s| > 0 && s[0] == '+' ==> r == s[1..]
    ensures !(|s| > 0 && s[0] == '+') ==> r == s
  {
    if |s| > 0 && s[0] == '+' then s[1..] else s
  }

  /**
   * The phone pattern as the literal is written: the doubled backslash is one literal backslash,
   * so after the optional '+' it wants a backslash and then 8 to 15 letters 'd'.
   */
  predicate PhoneMatchesAsWritten(s: string) {
    var rest := AfterPlus(s);
    |rest| >= 1 && rest[0] == '\\' && 8 <= |rest| - 1 <= 15 && forall i :: 1 <= i < |rest| ==> rest[i] == 'd'
  }

  /** The pattern the message describes: an optional '+' and then 8 to 15 digits. */
  predicate PhoneMatches(s: string) {
    var rest := AfterPlus(s);
    8 <= |rest| <= 15 && AllDigits(rest)
  }

  /** The as-written pattern rejects every number the message describes... */
  lemma PhoneAsWrittenRejectsNumbers(s: string)
    requires PhoneMatches(s)
    ensures !PhoneMatchesAsWritten(s)
  {
    var rest := AfterPlus(s);
    assert IsDigit(rest[0]);
  }

  /** ...and accepts a backslash and eight letters 'd'. */
  lemma PhoneAsWrittenAcceptsLetters()
    ensures PhoneMatchesAsWritten("\\dddddddd") && !PhoneMatchesAsWritten("12345678")
    ensures PhoneMatches("12345678") && PhoneMatches("+4712345678")
  {
    assert AfterPlus("+4712345678") == "4712345678";
  }

  /** The intended pattern, stated the other way round: an optional '+' followed by 8 to 15 digits. */
  lemma PhoneMatchesExactly(plus: bool, digits: string)
    requires 8 <= |digits| <= 15 && AllDigits(digits)
    ensures PhoneMatches(if plus then "+" + digits else digits)
  {
    if plus {
      assert AfterPlus("+" + digits) == digits;
    } else {
      assert digits[0] != '+';
    }
  }

  /** A '+' anywhere but first, or a non-digit after it, is refused by the intended pattern. */
  lemma PhoneRejectsOtherCharacters(s: string, i: nat)
    requires 0 < i < |s| && !IsDigit(s[i])
    ensures !PhoneMatches(s)
  {
    if |s| > 0 && s[0] == '+' {
      assert AfterPlus(s)[i - 1] == s[i];
    } else {
      assert AfterPlus(s)[i] == s[i];
    }
  }

  /** The issues of the three fields both schemas share (min(1) is not preceded by a trim). */
  function BasicIssues(firstName: string, lastName: string, ssn: string): (r: seq<Issue>)
    ensures r == [] <==> firstName != [] && lastName != [] && IsSsn(ssn)
    ensures |r| <= 3
  {
    Check(|firstName| >= 1, "firstName", FirstNameRequired) + Check(|lastName| >= 1, "lastName", LastNameRequired)
    + Check(IsSsn(ssn), "ssn", SsnFormat)
  }

  /** The issues of the phone field: the emptiness check and then the pattern, both always run. */
  function PhoneIssues(phone: string, matches: string -> bool): (r: seq<Issue>)
    ensures r == [] <==> |phone| >= 1 && matches(phone)
    ensures |r| <= 2 && forall i :: 0 <= i < |r| ==> r[i].path == "phone"
    ensures phone == [] ==> r[0] == Issue("phone", PhoneRequired)
  {
    Check(|phone| >= 1, "phone", PhoneRequired) + Check(matches(phone), "phone", PhoneFormat)
  }

  /** insuranceProfileSchema of the frontend as written. */
  function InsuranceProfileIssuesAsWritten(form: InsuranceProfileForm): (r: seq<Issue>)
    ensures r == [] <==>
      form.firstName != [] && form.lastName != [] && IsSsn(form.ssn) && PhoneMatchesAsWritten(form.phone)
  {
    BasicIssues(form.firstName, form.lastName, form.ssn) + PhoneIssues(form.phone, PhoneMatchesAsWritten)
  }

  /** No filled-in form with a real phone number gets through the schema as written. */
  lemma AsWrittenRefusesRealNumbers(form: InsuranceProfileForm)
    requires PhoneMatches(form.phone)
    ensures InsuranceProfileIssuesAsWritten(form) != []
    ensures Issue("phone", PhoneFormat) in InsuranceProfileIssuesAsWritten(form)
  {
    PhoneAsWrittenRejectsNumbers(form.phone);
    var basic := BasicIssues(form.firstName, form.lastName, form.ssn);
    assert |form.phone| >= 1;
    var r := InsuranceProfileIssuesAsWritten(form);
    assert r[|basic|] == Issue("phone", PhoneFormat);
  }

  /** insuranceProfileSchema with the phone pattern its message describes. */
  function InsuranceProfileIssues(form: InsuranceProfileForm): (r: seq<Issue>)
    ensures r == [] <==> form.firstName != [] && form.lastName != [] && IsSsn(form.ssn) && PhoneMatches(form.phone)
    ensures form.phone == [] ==> Issue("phone", PhoneRequired) in r && Issue("phone", PhoneFormat) in r
  {
    BasicIssues(form.firstName, form.lastName, form.ssn) + PhoneIssues(form.phone, PhoneMatches)
  }

  /** The two readings report the same issues for every phone number on which the patterns agree. */
  lemma SchemasDifferOnlyInPhoneFormat(form: InsuranceProfileForm)
    requires PhoneMatches(form.phone) <==> PhoneMatchesAsWritten(form.phone)
    ensures InsuranceProfileIssues(form) == InsuranceProfileIssuesAsWritten(form)
  {
  }

  /** The restructuring frontend's schema: the three basic fields and no phone. */
  function BasicProfileIssues(form: BasicProfileForm): (r: seq<Issue>)
    ensures r == [] <==> form.firstName != [] && form.lastName != [] && IsSsn(form.ssn)
    ensures forall i :: 0 <= i < |r| ==> r[i].path in {"firstName", "lastName", "ssn"}
  {
    BasicIssues(form.firstName, form.lastName, form.ssn)
  }

  /** The three-field schema reports what the four-field one reports before it reaches the phone. */
  lemma BasicSchemaIsPrefix(form: InsuranceProfileForm)
    ensures InsuranceProfileIssues(form) ==
      BasicProfileIssues(BasicProfileForm(form.firstName, form.lastName, form.ssn)) + PhoneIssues(form.phone, PhoneMatches)
  {
  }
}
