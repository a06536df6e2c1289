/**
 * The XML document sent to the insurer: a fixed template holding the user's first name, last name
 * and national identity number and the clock's current local date-time in ISO-8601 local form. The
 * clock is a parameter: the local date-time it reads.
 */
module InsuranceXml {
  import opened Wrappers
  import opened Text
  import Users

  /** A LocalDateTime: ISO calendar fields and nanoseconds. */
  datatype LocalDateTime = LocalDateTime(year: int, month: int, day: int, hour: int, minute: int, second: int, nano: int)

  predicate ValidDateTime(t: LocalDateTime) {
    && -999999999 <= t.year <= 999999999 && 1 <= t.month <= 12 && 1 <= t.day <= 31
    && 0 <= t.hour < 24 && 0 <= t.minute < 60 && 0 <= t.second < 60 && 0 <= t.nano < 1000000000
  }

  /** The year field: four digits at least, '+' before a year above 9999 and '-' before a negative one. */
  function FormatYear(year: int): (r: string)
    ensures 0 <= year <= 9999 ==> |r| == 4 && AllDigits(r) && DigitsValue(r) == year
  {
    if year < 0 then "-" + PadZero(-year, 4)
    else if year > 9999 then "+" + PadZero(year, 4)
    else
      PadZeroWidth(year, 4);
      PadZeroValue(year, 4);
      PadZero(year, 4)
  }

  /** A two-digit field. */
  function TwoDigits(n: nat): (r: string)
    requires n < 100
    ensures |r| == 2 && AllDigits(r) && DigitsValue(r) == n
  {
    PadZeroWidth(n, 2);
    PadZeroValue(n, 2);
    PadZero(n, 2)
  }

  /** The digits of s without its trailing zeros. */
  function StripTrailingZeros(s: string): (r: string)
    ensures r <= s
    ensures r == [] || r[|r| - 1] != '0'
    ensures forall i :: |r| <= i < |s| ==> s[i] == '0'
  {
    if s == [] || s[|s| - 1] != '0' then s else StripTrailingZeros(s[..|s| - 1])
  }

  /** The fraction of a second: nothing for zero nanoseconds, else '.' and the nine-digit fraction without trailing zeros. */
  function FormatFraction(nano: nat): (r: string)
    requires nano < 1000000000
    ensures nano == 0 <==> r == []
    ensures r != [] ==> r[0] == '.' && 2 <= |r| <= 10 && r[|r| - 1] != '0'
  {
    if nano == 0 then []
    else
      PadZeroWidth(nano, 9);
      var digits := PadZero(nano, 9);
      var stripped := StripTrailingZeros(digits);
      assert stripped != [] by {
        if stripped == [] {
          PadZeroValue(nano, 9);
          AllZeros(digits);
        }
      }
      "." + stripped
  }

  /** DateTimeFormatter.ISO_LOCAL_DATE_TIME: uuuu-MM-ddTHH:mm:ss and the fraction. */
  function FormatIsoLocalDateTime(t: LocalDateTime): (r: string)
    requires ValidDateTime(t)
    ensures 0 <= t.year <= 9999 && t.nano == 0 ==>
      && |r| == 19 && r[4] == '-' && r[7] == '-' && r[10] == 'T' && r[13] == ':' && r[16] == ':'
      && AllDigits(r[..4]) && DigitsValue(r[..4]) == t.year
      && AllDigits(r[5..7]) && DigitsValue(r[5..7]) == t.month
      && AllDigits(r[8..10]) && DigitsValue(r[8..10]) == t.day
      && AllDigits(r[11..13]) && DigitsValue(r[11..13]) == t.hour
      && AllDigits(r[14..16]) && DigitsValue(r[14..16]) == t.minute
      && AllDigits(r[17..19]) && DigitsValue(r[17..19]) == t.second
  {
    var y, mo, d, h, mi, s := FormatYear(t.year), TwoDigits(t.month), TwoDigits(t.day),
                              TwoDigits(t.hour), TwoDigits(t.minute), TwoDigits(t.second);
    var r := y + ("-" + (mo + ("-" + (d + ("T" + (h + (":" + (mi + (":" + (s + FormatFraction(t.nano)))))))))));
    if 0 <= t.year <= 9999 && t.nano == 0 then
      Fields(y, mo, d, h, mi, s);
      r
    else r
  }

  /** Where the six fields sit in y-mo-dTh:mi:s when the year has four digits and the others two. */
  lemma Fields(y: string, mo: string, d: string, h: string, mi: string, s: string)
    requires |y| == 4 && |mo| == 2 && |d| == 2 && |h| == 2 && |mi| == 2 && |s| == 2
    ensures var r := y + ("-" + (mo + ("-" + (d + ("T" + (h + (":" + (mi + (":" + (s + []))))))))));
      && |r| == 19 && r[4] == '-' && r[7] == '-' && r[10] == 'T' && r[13] == ':' && r[16] == ':'
      && r[..4] == y && r[5..7] == mo && r[8..10] == d && r[11..13] == h && r[14..16] == mi && r[17..19] == s
  {
    var r4 := d + ("T" + (h + (":" + (mi + (":" + (s + []))))));
    var r := y + ("-" + (mo + ("-" + r4)));
    Piece(y, '-', mo + ("-" + r4));
    Piece(mo, '-', r4);
    SubSlice(r, 5, 7);
    SubSlice(r, 5, 8);
    assert r[5..7] == mo && r[7] == '-';
    assert r[8..] == r4;
    Time(d, h, mi, s);
    SubSlice(r, 8, 10);
    SubSlice(r, 8, 19);
    assert r[8..][..2] == d && r[8..][2] == 'T';
    assert r[8..][3..5] == h && r[8..][5] == ':' && r[8..][6..8] == mi && r[8..][8] == ':' && r[8..][9..11] == s;
    SubSlice2(r, 8, 3, 5);
    SubSlice2(r, 8, 6, 8);
    SubSlice2(r, 8, 9, 11);
  }

  /** The pieces of d + "T" + h + ":" + mi + ":" + s. */
  lemma Time(d: string, h: string, mi: string, s: string)
    requires |d| == 2 && |h| == 2 && |mi| == 2 && |s| == 2
    ensures var r := d + ("T" + (h + (":" + (mi + (":" + (s + []))))));
      |r| == 11 && r[..2] == d && r[2] == 'T' && r[3..5] == h && r[5] == ':' && r[6..8] == mi && r[8] == ':' && r[9..11] == s
  {
    assert d == [d[0], d[1]] && h == [h[0], h[1]] && mi == [mi[0], mi[1]] && s == [s[0], s[1]];
    var r := d + ("T" + (h + (":" + (mi + (":" + (s + []))))));
    assert r == [d[0], d[1], 'T', h[0], h[1], ':', mi[0], mi[1], ':', s[0], s[1]];
  }

  /** Cutting a + [c] + b back into its parts. */
  lemma Piece(a: string, c: char, b: string)
    ensures var r := a + ([c] + b);
      r[..|a|] == a && r[|a|] == c && r[|a| + 1..] == b
  {
  }

  /** A slice of a suffix is a slice of the whole. */
  lemma SubSlice(r: string, i: nat, j: nat)
    requires i <= j <= |r|
    ensures r[i..][..j - i] == r[i..j] && (j < |r| ==> r[i..][j - i] == r[j]) && r[i..][j - i..] == r[j..]
  {
  }

  /** A slice of a slice of a suffix is a slice of the whole. */
  lemma SubSlice2(r: string, i: nat, j: nat, k: nat)
    requires i + j <= i + k <= |r|
    ensures r[i..][j..k] == r[i + j..i + k]
  {
  }

  /** The middle of p + v + q, cut at the lengths, is v. */
  lemma Slice(p: string, v: string, q: string)
    ensures (p + v + q)[|p|..|p| + |v|] == v
  {
  }

  /** sanitize: null becomes the empty string, any other value is kept as it is. */
  function Sanitize(value: Option<string>): (r: string)
    ensures value.None? ==> r == ""
    ensures value.Some? ==> r == value.value
  {
    if value.None? then "" else value.value
  }

  /**
   * The lines of XML_TEMPLATE.formatted(firstName, lastName, ssn, timestamp): the text block with
   * its common indentation stripped, the values in place of the four %s, verbatim and unescaped.
   */
  function TemplateLines(firstName: string, lastName: string, ssn: string, timestamp: string): seq<string> {
    [ "<InsuranceRequest>",
      "    <User>",
      "        <FirstName>" + firstName + "</FirstName>",
      "        <LastName>" + lastName + "</LastName>",
      "        <SSN>" + ssn + "</SSN>",
      "    </User>",
      "    <Timestamp>" + timestamp + "</Timestamp>",
      "</InsuranceRequest>" ]
  }

  /** The text block ends in a line break: every line is followed by one. */
  function Fill(firstName: string, lastName: string, ssn: string, timestamp: string): string {
    Join(TemplateLines(firstName, lastName, ssn, timestamp) + [""], '\n')
  }

  /** generate: a null user is rejected; otherwise the template is filled with the sanitised fields and the clock's time. */
  function Generate(user: Option<Users.UserRow>, now: LocalDateTime): (r: Result<string, string>)
    requires ValidDateTime(now)
    ensures user.None? <==> r.Err?
    ensures r.Err? ==> r.error == "user must not be null"
    ensures r.Ok? ==> r.value == Fill(Sanitize(user.value.firstName), Sanitize(user.value.lastName),
                                      Sanitize(user.value.ssn), FormatIsoLocalDateTime(now))
  {
    if user.None? then Err("user must not be null")
    else
      var u := user.value;
      Ok(Fill(Sanitize(u.firstName), Sanitize(u.lastName), Sanitize(u.ssn), FormatIsoLocalDateTime(now)))
  }

  /**
   * The document's lines can be read back: with values free of line breaks, splitting the document
   * at '\n' gives the template lines, each value verbatim between its tags, and an empty last part.
   */
  lemma DocumentLines(firstName: string, lastName: string, ssn: string, timestamp: string)
    requires '\n' !in firstName && '\n' !in lastName && '\n' !in ssn && '\n' !in timestamp
    ensures var lines := Split(Fill(firstName, lastName, ssn, timestamp), '\n');
      && |lines| == 9 && lines[8] == ""
      && lines[2] == "        <FirstName>" + firstName + "</FirstName>"
      && lines[3] == "        <LastName>" + lastName + "</LastName>"
      && lines[4] == "        <SSN>" + ssn + "</SSN>"
      && lines[6] == "    <Timestamp>" + timestamp + "</Timestamp>"
  {
    var parts := TemplateLines(firstName, lastName, ssn, timestamp) + [""];
    forall i | 0 <= i < |parts| ensures '\n' !in parts[i] {
      if i == 2 { Around3("        <FirstName>", firstName, "</FirstName>"); }
      if i == 3 { Around3("        <LastName>", lastName, "</LastName>"); }
      if i == 4 { Around3("        <SSN>", ssn, "</SSN>"); }
      if i == 6 { Around3("    <Timestamp>", timestamp, "</Timestamp>"); }
    }
    SplitJoin(parts, '\n');
  }

  /** A line break in a + b + c is in one of the three. */
  lemma Around3(a: string, b: string, c: string)
    requires '\n' !in a && '\n' !in b && '\n' !in c
    ensures '\n' !in a + b + c
  {
  }

  /** A null name or identity number renders exactly as an empty one. */
  lemma NullFieldsEmpty(user: Users.UserRow, now: LocalDateTime)
    requires ValidDateTime(now)
    ensures Generate(Some(user.(firstName := None, lastName := None, ssn := None)), now)
            == Generate(Some(user.(firstName := Some(""), lastName := Some(""), ssn := Some(""))), now)
    ensures Generate(Some(user.(firstName := None, lastName := None, ssn := None)), now)
            == Ok(Fill("", "", "", FormatIsoLocalDateTime(now)))
  {
  }

  /** The fixed clock of the generator's test: 2024-01-15T10:15:30 in UTC. */
  const FixedNow: LocalDateTime := LocalDateTime(2024, 1, 15, 10, 15, 30, 0)

  /** The fixed clock renders as 2024-01-15T10:15:30. */
  lemma FixedTimestamp()
    ensures FormatIsoLocalDateTime(FixedNow) == "2024-01-15T10:15:30"
  {
    FixedYear();
    FixedTwoDigits();
    FixedMerge();
  }

  lemma FixedYear()
    ensures FormatYear(2024) == "2024"
  {
    assert NatToString(2) == "2";
    assert NatToString(20) == "20";
    assert NatToString(202) == "202";
    assert NatToString(2024) == "2024";
  }

  lemma FixedTwoDigits()
    ensures TwoDigits(1) == "01" && TwoDigits(15) == "15" && TwoDigits(10) == "10" && TwoDigits(30) == "30"
  {
    assert NatToString(1) == "1";
    TwoDigitsOf(1, 5);
    TwoDigitsOf(1, 0);
    TwoDigitsOf(3, 0);
  }

  lemma TwoDigitsOf(tens: nat, ones: nat)
    requires 1 <= tens < 10 && ones < 10
    ensures TwoDigits(10 * tens + ones) == [DigitChar(tens), DigitChar(ones)]
  {
    var n := 10 * tens + ones;
    assert n / 10 == tens && n % 10 == ones;
    assert NatToString(n) == NatToString(tens) + [DigitChar(ones)];
  }

  lemma FixedMerge()
    ensures "2024" + ("-" + ("01" + ("-" + ("15" + ("T" + ("10" + (":" + ("15" + (":" + ("30" + []))))))))))
            == "2024-01-15T10:15:30"
  {
  }

  /** The test's user John Doe with identity number 12345678901 at the fixed clock. */
  lemma GeneratesAllUserFields(user: Users.UserRow)
    requires user.firstName == Some("John") && user.lastName == Some("Doe") && user.ssn == Some("12345678901")
    ensures Generate(Some(user), FixedNow) == Ok(Join(JohnDoeLines + [""], '\n'))
  {
    FixedTimestamp();
    JohnDoeTemplate();
  }

  /** The lines the test expects for John Doe. */
  const JohnDoeLines: seq<string> := [
    "<InsuranceRequest>",
    "    <User>",
    "        <FirstName>John</FirstName>",
    "        <LastName>Doe</LastName>",
    "        <SSN>12345678901</SSN>",
    "    </User>",
    "    <Timestamp>2024-01-15T10:15:30</Timestamp>",
    "</InsuranceRequest>"]

  lemma JohnDoeTemplate()
    ensures TemplateLines("John", "Doe", "12345678901", "2024-01-15T10:15:30") == JohnDoeLines
  {
    JohnLine();
    DoeLine();
    SsnLine();
    TimestampLine();
  }

  lemma JohnLine()
    ensures "        <FirstName>" + "John" + "</FirstName>" == "        <FirstName>John</FirstName>"
  {
  }

  lemma DoeLine()
    ensures "        <LastName>" + "Doe" + "</LastName>" == "        <LastName>Doe</LastName>"
  {
  }

  lemma SsnLine()
    ensures "        <SSN>" + "12345678901" + "</SSN>" == "        <SSN>12345678901</SSN>"
  {
  }

  lemma TimestampLine()
    ensures "    <Timestamp>" + "2024-01-15T10:15:30" + "</Timestamp>" == "    <Timestamp>2024-01-15T10:15:30</Timestamp>"
  {
  }

  /** The test's user with every field null at the fixed clock: empty elements. */
  lemma ReplacesNullUserFields(user: Users.UserRow)
    requires user.firstName.None? && user.lastName.None? && user.ssn.None?
    ensures Generate(Some(user), FixedNow) == Ok(Join(EmptyLines + [""], '\n'))
  {
    FixedTimestamp();
    EmptyTemplate();
  }

  /** The lines the test expects for a user without names and identity number. */
  const EmptyLines: seq<string> := [
    "<InsuranceRequest>",
    "    <User>",
    "        <FirstName></FirstName>",
    "        <LastName></LastName>",
    "        <SSN></SSN>",
    "    </User>",
    "    <Timestamp>2024-01-15T10:15:30</Timestamp>",
    "</InsuranceRequest>"]

  lemma EmptyTemplate()
    ensures TemplateLines("", "", "", "2024-01-15T10:15:30") == EmptyLines
  {
    assert "        <FirstName>" + "" + "</FirstName>" == "        <FirstName></FirstName>";
    assert "        <LastName>" + "" + "</LastName>" == "        <LastName></LastName>";
    assert "        <SSN>" + "" + "</SSN>" == "        <SSN></SSN>";
    TimestampLine();
  }
}
