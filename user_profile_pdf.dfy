/**
 * The administrators' profile PDF: the aggregate the database returns for a user, laid out as a
 * title, a generation time and six sections (user, plan, journal, requests, insurances, latest
 * snapshot) of headings, sentences and bullet lists. The document is the sequence of elements added
 * to it; rendering them into PDF bytes is not modelled. Date parsing, the diary's JSON and the
 * aggregate's JSON are parameters, and so are the clock's readings.
 */
module UserProfilePdf {
  import opened Wrappers
  import opened Text
  import opened StringOrder
  import InsuranceXml
  import UserPlanService
  import Sequences

  datatype JournalEntryItem = JournalEntryItem(id: Option<int>, phase: Option<int>, content: Option<string>,
                                               createdAt: Option<string>)

  datatype InsuranceRequestItem = InsuranceRequestItem(id: Option<int>, status: Option<string>, xmlContent: Option<string>,
                                                       createdAt: Option<string>)

  datatype UserInsuranceItem = UserInsuranceItem(id: Option<int>, source: Option<string>, providerName: Option<string>,
                                                 productName: Option<string>, notes: Option<string>, active: Option<bool>,
                                                 validFrom: Option<string>, validTo: Option<string>)

  datatype InsuranceSnapshotItem = InsuranceSnapshotItem(id: Option<int>, source: Option<string>, uncertain: Option<bool>,
                                                         createdAt: Option<string>, types: Option<seq<string>>)

  datatype UserProfileAggregate = UserProfileAggregate(
    userId: Option<int>, userEmail: Option<string>, userCreated: Option<string>,
    planId: Option<int>, planPhase: Option<string>, planPersona: Option<string>, planNeeds: Option<string>,
    planDiary: Option<string>, planCreated: Option<string>, planUpdated: Option<string>,
    journalEntries: Option<seq<JournalEntryItem>>, requests: Option<seq<InsuranceRequestItem>>,
    insurances: Option<seq<UserInsuranceItem>>, snapshot: Option<InsuranceSnapshotItem>)

  datatype Font = TitleFont | HeaderFont | BodyFont | DefaultFont

  /** What the service adds to the document: a paragraph in a font, or an unordered list of lines. */
  datatype Element = Paragraph(text: string, font: Font) | BulletList(items: seq<string>)

  /** new Paragraph(" "): the spacer after a section. */
  const Spacer: Element := Paragraph(" ", DefaultFont)

  /**
   * OffsetDateTime.parse, and failing that LocalDateTime.parse: the local date-time fields of the
   * first that accepts the text. Whatever it yields is a valid date-time.
   */
  ghost predicate ValidParser(parse: string -> Option<InsuranceXml.LocalDateTime>) {
    forall s :: parse(s).Some? ==> InsuranceXml.ValidDateTime(parse(s).value)
  }

  /** orDash: "-" for a null or blank value, otherwise the value; never blank. */
  function OrDash(value: Option<string>): (r: string)
    ensures !IsBlank(r)
    ensures value.None? || IsBlank(value.value) ==> r == "-"
    ensures value.Some? && !IsBlank(value.value) ==> r == value.value
  {
    assert "-"[0] == '-';
    if value.None? then "-"
    else if IsBlank(value.value) then "-"
    else value.value
  }

  /** orDash of a Long or an Integer: "-" for null, otherwise its decimal form. */
  function OrDashNumber(value: Option<int>): (r: string)
    ensures !IsBlank(r)
    ensures value.None? ==> r == "-"
    ensures value.Some? ==> r == IntToString(value.value)
  {
    if value.None? then OrDash(None)
    else
      var s := IntToString(value.value);
      assert !IsSpace(s[|s| - 1]);
      OrDash(Some(s))
  }

  /** "..." + id: string concatenation renders a null Long as "null". */
  function IdText(id: Option<int>): string {
    if id.None? then "null" else IntToString(id.value)
  }

  /** A digit string holds no 'T'. */
  lemma DigitsHaveNoT(s: string)
    requires AllDigits(s)
    ensures 'T' !in s
  {
    forall i | 0 <= i < |s| ensures s[i] != 'T' {
      assert IsDigit(s[i]);
    }
  }

  /** The year-of-era field of a yyyy pattern: at least four digits, '+' before more than four. */
  function PatternYear(year: int): (r: string)
    ensures 'T' !in r
    ensures 1 <= year <= 9999 ==> |r| == 4 && AllDigits(r) && DigitsValue(r) == year
  {
    var yearOfEra := if year >= 1 then year else 1 - year;
    if yearOfEra > 9999 then
      DigitsHaveNoT(NatToString(yearOfEra));
      "+" + NatToString(yearOfEra)
    else
      DigitsHaveNoT(PadZero(yearOfEra, 4));
      PadZeroWidth(yearOfEra, 4);
      PadZeroValue(yearOfEra, 4);
      PadZero(yearOfEra, 4)
  }

  function Two(n: int): (r: string)
    requires 0 <= n < 100
    ensures 'T' !in r && |r| == 2 && AllDigits(r) && DigitsValue(r) == n
  {
    var r := InsuranceXml.TwoDigits(n);
    DigitsHaveNoT(r);
    r
  }

  /** DISPLAY_TIMESTAMP, the pattern yyyy-MM-dd HH:mm. */
  function DisplayTimestamp(t: InsuranceXml.LocalDateTime): (r: string)
    requires InsuranceXml.ValidDateTime(t)
    ensures 'T' !in r
  {
    PatternYear(t.year) + ("-" + (Two(t.month) + ("-" + (Two(t.day) + (" " + (Two(t.hour) + (":" + Two(t.minute))))))))
  }

  /** FILE_TIMESTAMP, the pattern yyyyMMddHHmm. */
  function FileTimestamp(t: InsuranceXml.LocalDateTime): (r: string)
    requires InsuranceXml.ValidDateTime(t)
    ensures 1 <= t.year <= 9999 ==> |r| == 12 && AllDigits(r)
  {
    PatternYear(t.year) + (Two(t.month) + (Two(t.day) + (Two(t.hour) + Two(t.minute))))
  }

  /**
   * formatDate: "-" for a null or blank text; the display pattern when a parser accepts it;
   * otherwise the text itself with every 'T' turned into a space. The result never holds a 'T'.
   */
  function FormatDate(input: Option<string>, parse: string -> Option<InsuranceXml.LocalDateTime>): (r: string)
    requires ValidParser(parse)
    ensures 'T' !in r
    ensures input.None? || IsBlank(input.value) ==> r == "-"
    ensures input.Some? && !IsBlank(input.value) && parse(input.value).Some? ==> r == DisplayTimestamp(parse(input.value).value)
    ensures input.Some? && !IsBlank(input.value) && parse(input.value).None? ==>
      |r| == |input.value| && forall i :: 0 <= i < |r| ==> r[i] == if input.value[i] == 'T' then ' ' else input.value[i]
  {
    if input.None? || IsBlank(input.value) then "-"
    else if parse(input.value).Some? then DisplayTimestamp(parse(input.value).value)
    else
      var r := ReplaceChar(input.value, 'T', ' ');
      assert forall i :: 0 <= i < |r| ==> r[i] != 'T';
      r
  }

  /**
   * parseDiaryMap: the empty map for a null or blank text, the object read when it is one, the
   * empty map for a JSON null, and the whole text under "Notat" when it cannot be read.
   */
  function ParseDiaryMap(raw: Option<string>, read: string -> UserPlanService.DiaryParse): (r: map<string, string>)
    ensures raw.None? || IsBlank(raw.value) ==> r == map[]
    ensures raw.Some? && !IsBlank(raw.value) ==>
      match read(raw.value)
      case Parsed(entries) => r == entries
      case NullDocument => r == map[]
      case NotAMap => r == map["Notat" := raw.value]
  {
    if raw.None? || IsBlank(raw.value) then map[]
    else
      match read(raw.value)
      case Parsed(entries) => entries
      case NullDocument => map[]
      case NotAMap => map["Notat" := raw.value]
  }

  /** The diary lines: "key: value" for every entry, by key ascending. */
  function DiaryLines(diaries: map<string, string>): (r: seq<string>)
    ensures var keys := SortedKeys(diaries.Keys);
      && |r| == |keys| == |diaries|
      && (forall k :: k in keys <==> k in diaries)
      && (forall i, j :: 0 <= i < j < |keys| ==> Less(keys[i], keys[j]))
      && forall i :: 0 <= i < |r| ==> r[i] == keys[i] + ": " + diaries[keys[i]]
  {
    var keys := SortedKeys(diaries.Keys);
    seq(|keys|, i requires 0 <= i < |keys| => keys[i] + ": " + diaries[keys[i]])
  }

  /** An unreadable diary appears as the single line "Notat: " and the raw text. */
  lemma UnreadableDiaryLine(raw: string, read: string -> UserPlanService.DiaryParse)
    requires !IsBlank(raw) && read(raw).NotAMap?
    ensures DiaryLines(ParseDiaryMap(Some(raw), read)) == ["Notat: " + raw]
  {
    var d := ParseDiaryMap(Some(raw), read);
    assert d.Keys == {"Notat"};
    var keys := SortedKeys(d.Keys);
    assert "Notat" in keys;
    assert keys == ["Notat"];
    assert "Notat" + ": " + raw == "Notat: " + raw;
  }

  /** addBulletList: nothing for an empty list, else one list of the lines. */
  function BulletElements(lines: seq<string>): (r: seq<Element>)
    ensures lines == [] <==> r == []
  {
    if lines == [] then [] else [BulletList(lines)]
  }

  function UserLines(p: UserProfileAggregate, parse: string -> Option<InsuranceXml.LocalDateTime>): seq<string>
    requires ValidParser(parse)
  {
    [ "Bruker-ID: " + OrDashNumber(p.userId),
      "E-post: " + OrDash(p.userEmail),
      "Opprettet: " + FormatDate(p.userCreated, parse) ]
  }

  function UserSection(p: UserProfileAggregate, parse: string -> Option<InsuranceXml.LocalDateTime>): seq<Element>
    requires ValidParser(parse)
  {
    [Paragraph("Bruker", HeaderFont)] + BulletElements(UserLines(p, parse)) + [Spacer]
  }

  /** The needs line's value: "-" for none, else the needs joined with ", ". */
  function NeedsText(needs: seq<string>): string {
    if needs == [] then "-" else JoinWith(needs, ", ")
  }

  function PlanLines(p: UserProfileAggregate, parse: string -> Option<InsuranceXml.LocalDateTime>): seq<string>
    requires ValidParser(parse)
  {
    [ "Plan-ID: " + OrDashNumber(p.planId),
      "Persona: " + OrDash(p.planPersona),
      "Fase: " + OrDash(p.planPhase),
      "Behov: " + NeedsText(UserPlanService.SplitNeeds(p.planNeeds)),
      "Opprettet: " + FormatDate(p.planCreated, parse),
      "Sist oppdatert: " + FormatDate(p.planUpdated, parse) ]
  }

  /** The plan section: its six lines, then the diary under "Dagbok" when there is one. */
  function PlanSection(p: UserProfileAggregate, parse: string -> Option<InsuranceXml.LocalDateTime>,
                       read: string -> UserPlanService.DiaryParse): seq<Element>
    requires ValidParser(parse)
  {
    [Paragraph("Plan", HeaderFont)] + BulletElements(PlanLines(p, parse)) + DiaryElements(ParseDiaryMap(p.planDiary, read))
    + [Spacer]
  }

  /** The diary under "Dagbok", when there is one. */
  function DiaryElements(diaries: map<string, string>): seq<Element> {
    if diaries == map[] then [] else [Paragraph("Dagbok", BodyFont)] + BulletElements(DiaryLines(diaries))
  }

  /** A journal entry's sort key: its creation text, "" when null. */
  function JournalKey(e: JournalEntryItem): string {
    e.createdAt.GetOr("")
  }

  function JournalLine(e: JournalEntryItem, parse: string -> Option<InsuranceXml.LocalDateTime>): string
    requires ValidParser(parse)
  {
    "ID " + IdText(e.id) + " (fase " + OrDashNumber(e.phase) + ", " + FormatDate(e.createdAt, parse) + ")"
    + ":\n" + (if e.content.None? then "-" else e.content.value)
  }

  function JournalLines(entries: seq<JournalEntryItem>, parse: string -> Option<InsuranceXml.LocalDateTime>): (r: seq<string>)
    requires ValidParser(parse)
    ensures |r| == |entries|
    ensures forall i :: 0 <= i < |r| ==> r[i] == JournalLine(SortDescending(entries, JournalKey)[i], parse)
  {
    var sorted := SortDescending(entries, JournalKey);
    seq(|sorted|, i requires 0 <= i < |sorted| && ValidParser(parse) => JournalLine(sorted[i], parse))
  }

  /** The journal section: "Ingen journalinnslag." when there are no entries, else one line per entry. */
  function JournalSection(p: UserProfileAggregate, parse: string -> Option<InsuranceXml.LocalDateTime>): (r: seq<Element>)
    requires ValidParser(parse)
    ensures p.journalEntries.GetOr([]) == [] ==>
      r == [Paragraph("Journal", HeaderFont), Paragraph("Ingen journalinnslag.", BodyFont), Spacer]
    ensures p.journalEntries.GetOr([]) != [] ==>
      r == [Paragraph("Journal", HeaderFont), BulletList(JournalLines(p.journalEntries.value, parse)), Spacer]
      && |r[1].items| == |p.journalEntries.value|
  {
    var entries := p.journalEntries.GetOr([]);
    if entries == [] then [Paragraph("Journal", HeaderFont), Paragraph("Ingen journalinnslag.", BodyFont), Spacer]
    else [Paragraph("Journal", HeaderFont)] + BulletElements(JournalLines(entries, parse)) + [Spacer]
  }

  /**
   * The journal is listed newest first: the listed entries are the entries, each once, by creation
   * text descending, entries with the same creation text in their original order, and those
   * without one last.
   */
  lemma JournalNewestFirst(entries: seq<JournalEntryItem>)
    ensures var sorted := SortDescending(entries, JournalKey);
      && multiset(sorted) == multiset(entries)
      && Descending(sorted, JournalKey)
      && (forall v :: WithKey(sorted, JournalKey, v) == WithKey(entries, JournalKey, v))
      && forall i, j :: 0 <= i < j < |sorted| && sorted[i].createdAt.None? ==> JournalKey(sorted[j]) == ""
  {
    var sorted := SortDescending(entries, JournalKey);
    SortDescendingSorted(entries, JournalKey);
    forall v {
      SortDescendingStable(entries, JournalKey, v);
    }
    forall i, j | 0 <= i < j < |sorted| && sorted[i].createdAt.None? ensures JournalKey(sorted[j]) == "" {
      EmptyKeysLast(sorted, JournalKey, i, j);
    }
  }

  function RequestKey(r: InsuranceRequestItem): string {
    r.createdAt.GetOr("")
  }

  function RequestLine(r: InsuranceRequestItem, parse: string -> Option<InsuranceXml.LocalDateTime>): string
    requires ValidParser(parse)
  {
    "ID " + IdText(r.id) + " [" + OrDash(r.status) + "] " + FormatDate(r.createdAt, parse)
  }

  function RequestLines(requests: seq<InsuranceRequestItem>, parse: string -> Option<InsuranceXml.LocalDateTime>): (r: seq<string>)
    requires ValidParser(parse)
    ensures |r| == |requests|
    ensures forall i :: 0 <= i < |r| ==> r[i] == RequestLine(SortDescending(requests, RequestKey)[i], parse)
  {
    var sorted := SortDescending(requests, RequestKey);
    seq(|sorted|, i requires 0 <= i < |sorted| && ValidParser(parse) => RequestLine(sorted[i], parse))
  }

  /** The requests section: "Ingen forespørsler." when there are none, else one line per request. */
  function RequestsSection(p: UserProfileAggregate, parse: string -> Option<InsuranceXml.LocalDateTime>): (r: seq<Element>)
    requires ValidParser(parse)
    ensures p.requests.GetOr([]) == [] ==>
      r == [Paragraph("Forsikringsforespørsler", HeaderFont), Paragraph("Ingen forespørsler.", BodyFont), Spacer]
    ensures p.requests.GetOr([]) != [] ==>
      r == [Paragraph("Forsikringsforespørsler", HeaderFont), BulletList(RequestLines(p.requests.value, parse)), Spacer]
      && |r[1].items| == |p.requests.value|
  {
    var requests := p.requests.GetOr([]);
    if requests == [] then [Paragraph("Forsikringsforespørsler", HeaderFont), Paragraph("Ingen forespørsler.", BodyFont), Spacer]
    else [Paragraph("Forsikringsforespørsler", HeaderFont)] + BulletElements(RequestLines(requests, parse)) + [Spacer]
  }

  /** The requests are listed newest first, as the journal is. */
  lemma RequestsNewestFirst(requests: seq<InsuranceRequestItem>)
    ensures var sorted := SortDescending(requests, RequestKey);
      && multiset(sorted) == multiset(requests)
      && Descending(sorted, RequestKey)
      && (forall v :: WithKey(sorted, RequestKey, v) == WithKey(requests, RequestKey, v))
      && forall i, j :: 0 <= i < j < |sorted| && sorted[i].createdAt.None? ==> RequestKey(sorted[j]) == ""
  {
    var sorted := SortDescending(requests, RequestKey);
    SortDescendingSorted(requests, RequestKey);
    forall v {
      SortDescendingStable(requests, RequestKey, v);
    }
    forall i, j | 0 <= i < j < |sorted| && sorted[i].createdAt.None? ensures RequestKey(sorted[j]) == "" {
      EmptyKeysLast(sorted, RequestKey, i, j);
    }
  }

  /** Aktiv and Usikker: "Ja" only for a Boolean that is TRUE, "Nei" for false and for null. */
  function YesNo(b: Option<bool>): (r: string)
    ensures r == "Ja" <==> b == Some(true)
    ensures r == "Ja" || r == "Nei"
  {
    if b.Some? && b.value then "Ja" else "Nei"
  }

  /** The notes part of an insurance line: " | Notat: " and the notes unless they are null or blank. */
  function NotesSuffix(notes: Option<string>): string {
    if notes.Some? && !IsBlank(notes.value) then " | Notat: " + notes.value else ""
  }

  function InsuranceLine(item: UserInsuranceItem, parse: string -> Option<InsuranceXml.LocalDateTime>): string
    requires ValidParser(parse)
  {
    var period := "Gyldig: " + FormatDate(item.validFrom, parse) + " - " + FormatDate(item.validTo, parse);
    "ID " + IdText(item.id) + " (" + OrDash(item.source) + "): " + OrDash(item.providerName) + " - "
    + OrDash(item.productName) + " | Aktiv: " + YesNo(item.active) + " | " + period + NotesSuffix(item.notes)
  }

  /** One line per insurance, in the order given. */
  function InsuranceLines(insurances: seq<UserInsuranceItem>, parse: string -> Option<InsuranceXml.LocalDateTime>): (r: seq<string>)
    requires ValidParser(parse)
    ensures |r| == |insurances|
    ensures forall i :: 0 <= i < |r| ==> r[i] == InsuranceLine(insurances[i], parse)
  {
    seq(|insurances|, i requires 0 <= i < |insurances| && ValidParser(parse) => InsuranceLine(insurances[i], parse))
  }

  /** The insurances section: "Ingen registrerte forsikringer." when there are none, else one line each, in their order. */
  function InsurancesSection(p: UserProfileAggregate, parse: string -> Option<InsuranceXml.LocalDateTime>): (r: seq<Element>)
    requires ValidParser(parse)
    ensures p.insurances.GetOr([]) == [] ==>
      r == [Paragraph("Forsikringsprofil", HeaderFont), Paragraph("Ingen registrerte forsikringer.", BodyFont), Spacer]
    ensures p.insurances.GetOr([]) != [] ==>
      |r| == 3 && r[0] == Paragraph("Forsikringsprofil", HeaderFont) && r[2] == Spacer && r[1].BulletList?
      && |r[1].items| == |p.insurances.value|
      && forall i :: 0 <= i < |r[1].items| ==> r[1].items[i] == InsuranceLine(p.insurances.value[i], parse)
  {
    var insurances := p.insurances.GetOr([]);
    if insurances == [] then
      [Paragraph("Forsikringsprofil", HeaderFont), Paragraph("Ingen registrerte forsikringer.", BodyFont), Spacer]
    else
      [Paragraph("Forsikringsprofil", HeaderFont)] + BulletElements(InsuranceLines(insurances, parse)) + [Spacer]
  }

  /** The snapshot's lines: id, source, uncertainty and creation, then the types when there are any. */
  function SnapshotLinesOf(s: InsuranceSnapshotItem, parse: string -> Option<InsuranceXml.LocalDateTime>): (r: seq<string>)
    requires ValidParser(parse)
    ensures |r| == if s.types.GetOr([]) == [] then 4 else 5
  {
    var types := s.types.GetOr([]);
    [ "Snapshot-ID: " + OrDashNumber(s.id),
      "Kilde: " + OrDash(s.source),
      "Usikker: " + YesNo(s.uncertain),
      "Opprettet: " + FormatDate(s.createdAt, parse) ]
    + (if types == [] then [] else ["Typer: " + JoinWith(types, ", ")])
  }

  /** The lines of the snapshot section, gathered in a list one by one. */
  method SnapshotLines(s: InsuranceSnapshotItem, parse: string -> Option<InsuranceXml.LocalDateTime>) returns (lines: seq<string>)
    requires ValidParser(parse)
    ensures lines == SnapshotLinesOf(s, parse)
  {
    lines := [];
    lines := lines + ["Snapshot-ID: " + OrDashNumber(s.id)];
    lines := lines + ["Kilde: " + OrDash(s.source)];
    lines := lines + ["Usikker: " + YesNo(s.uncertain)];
    lines := lines + ["Opprettet: " + FormatDate(s.createdAt, parse)];
    var types := if s.types.None? then [] else s.types.value;
    if types != [] {
      lines := lines + ["Typer: " + JoinWith(types, ", ")];
    }
  }

  /** The snapshot section: "Ingen snapshot registrert." without a snapshot; no spacer follows either way. */
  function SnapshotSection(p: UserProfileAggregate, parse: string -> Option<InsuranceXml.LocalDateTime>): (r: seq<Element>)
    requires ValidParser(parse)
    ensures p.snapshot.None? ==>
      r == [Paragraph("Siste forsikrings-snapshot", HeaderFont), Paragraph("Ingen snapshot registrert.", BodyFont)]
    ensures p.snapshot.Some? ==>
      r == [Paragraph("Siste forsikrings-snapshot", HeaderFont), BulletList(SnapshotLinesOf(p.snapshot.value, parse))]
  {
    if p.snapshot.None? then
      [Paragraph("Siste forsikrings-snapshot", HeaderFont), Paragraph("Ingen snapshot registrert.", BodyFont)]
    else
      [Paragraph("Siste forsikrings-snapshot", HeaderFont)] + BulletElements(SnapshotLinesOf(p.snapshot.value, parse))
  }

  /** The whole document: title, generation time, spacer and the six sections in order. */
  function Rendered(p: UserProfileAggregate, generatedAt: string, parse: string -> Option<InsuranceXml.LocalDateTime>,
                    read: string -> UserPlanService.DiaryParse): seq<Element>
    requires ValidParser(parse)
  {
    [ Paragraph("Omstillingsprofil", TitleFont),
      Paragraph("Generert: " + FormatDate(Some(generatedAt), parse), BodyFont),
      Spacer ]
    + UserSection(p, parse) + PlanSection(p, parse, read) + JournalSection(p, parse)
    + RequestsSection(p, parse) + InsurancesSection(p, parse) + SnapshotSection(p, parse)
  }

  /** The OpenPDF document, as the sequence of elements added to it. */
  class Document {
    var elements: seq<Element>

    constructor ()
      ensures elements == []
    {
      elements := [];
    }

    method Add(e: Element)
      modifies this
      ensures elements == old(elements) + [e]
    {
      elements := elements + [e];
    }

    /** addBulletList. */
    method AddBulletList(lines: seq<string>)
      modifies this
      ensures elements == old(elements) + BulletElements(lines)
    {
      if lines == [] {
        return;
      }
      Add(BulletList(lines));
    }
  }

  method AddUserSection(document: Document, p: UserProfileAggregate, parse: string -> Option<InsuranceXml.LocalDateTime>)
    requires ValidParser(parse)
    modifies document
    ensures document.elements == old(document.elements) + UserSection(p, parse)
  {
    ghost var before := document.elements;
    document.Add(Paragraph("Bruker", HeaderFont));
    document.AddBulletList(UserLines(p, parse));
    document.Add(Spacer);
    Sequences.Concat3(before, [Paragraph("Bruker", HeaderFont)], BulletElements(UserLines(p, parse)), [Spacer]);
  }

  method AddPlanSection(document: Document, p: UserProfileAggregate, parse: string -> Option<InsuranceXml.LocalDateTime>,
                        read: string -> UserPlanService.DiaryParse)
    requires ValidParser(parse)
    modifies document
    ensures document.elements == old(document.elements) + PlanSection(p, parse, read)
  {
    ghost var start := document.elements;
    document.Add(Paragraph("Plan", HeaderFont));
    var diaries := ParseDiaryMap(p.planDiary, read);
    var lines := PlanLines(p, parse);
    document.AddBulletList(lines);
    ghost var head := document.elements;
    if diaries != map[] {
      document.Add(Paragraph("Dagbok", BodyFont));
      document.AddBulletList(DiaryLines(diaries));
    }
    assert document.elements == head + DiaryElements(diaries);
    document.Add(Spacer);
    Sequences.Concat4(start, [Paragraph("Plan", HeaderFont)], BulletElements(lines), DiaryElements(diaries), [Spacer]);
  }

  method AddJournalSection(document: Document, p: UserProfileAggregate, parse: string -> Option<InsuranceXml.LocalDateTime>)
    requires ValidParser(parse)
    modifies document
    ensures document.elements == old(document.elements) + JournalSection(p, parse)
  {
    ghost var before := document.elements;
    var header := Paragraph("Journal", HeaderFont);
    document.Add(header);
    var entries := if p.journalEntries.None? then [] else p.journalEntries.value;
    if entries == [] {
      document.Add(Paragraph("Ingen journalinnslag.", BodyFont));
      document.Add(Spacer);
      Sequences.Concat3(before, [header], [Paragraph("Ingen journalinnslag.", BodyFont)], [Spacer]);
      return;
    }
    var lines := JournalLines(entries, parse);
    document.AddBulletList(lines);
    document.Add(Spacer);
    Sequences.Concat3(before, [header], BulletElements(lines), [Spacer]);
    assert JournalSection(p, parse) == [header] + BulletElements(lines) + [Spacer];
  }

  method AddRequestsSection(document: Document, p: UserProfileAggregate, parse: string -> Option<InsuranceXml.LocalDateTime>)
    requires ValidParser(parse)
    modifies document
    ensures document.elements == old(document.elements) + RequestsSection(p, parse)
  {
    ghost var before := document.elements;
    var header := Paragraph("Forsikringsforespørsler", HeaderFont);
    document.Add(header);
    var requests := if p.requests.None? then [] else p.requests.value;
    if requests == [] {
      document.Add(Paragraph("Ingen forespørsler.", BodyFont));
      document.Add(Spacer);
      Sequences.Concat3(before, [header], [Paragraph("Ingen forespørsler.", BodyFont)], [Spacer]);
      return;
    }
    var lines := RequestLines(requests, parse);
    document.AddBulletList(lines);
    document.Add(Spacer);
    Sequences.Concat3(before, [header], BulletElements(lines), [Spacer]);
    assert RequestsSection(p, parse) == [header] + BulletElements(lines) + [Spacer];
  }

  method AddInsurancesSection(document: Document, p: UserProfileAggregate, parse: string -> Option<InsuranceXml.LocalDateTime>)
    requires ValidParser(parse)
    modifies document
    ensures document.elements == old(document.elements) + InsurancesSection(p, parse)
  {
    ghost var before := document.elements;
    var header := Paragraph("Forsikringsprofil", HeaderFont);
    document.Add(header);
    var insurances := if p.insurances.None? then [] else p.insurances.value;
    if insurances == [] {
      document.Add(Paragraph("Ingen registrerte forsikringer.", BodyFont));
      document.Add(Spacer);
      Sequences.Concat3(before, [header], [Paragraph("Ingen registrerte forsikringer.", BodyFont)], [Spacer]);
      return;
    }
    var lines := InsuranceLines(insurances, parse);
    document.AddBulletList(lines);
    document.Add(Spacer);
    Sequences.Concat3(before, [header], BulletElements(lines), [Spacer]);
    assert InsurancesSection(p, parse) == [header] + BulletElements(lines) + [Spacer];
  }

  method AddSnapshotSection(document: Document, p: UserProfileAggregate, parse: string -> Option<InsuranceXml.LocalDateTime>)
    requires ValidParser(parse)
    modifies document
    ensures document.elements == old(document.elements) + SnapshotSection(p, parse)
  {
    document.Add(Paragraph("Siste forsikrings-snapshot", HeaderFont));
    if p.snapshot.None? {
      document.Add(Paragraph("Ingen snapshot registrert.", BodyFont));
      return;
    }
    var lines := SnapshotLines(p.snapshot.value, parse);
    document.AddBulletList(lines);
  }

  /** renderPdf: a new document, the title, the generation time, a spacer and the sections in order. */
  method RenderPdf(p: UserProfileAggregate, generatedAt: string, parse: string -> Option<InsuranceXml.LocalDateTime>,
                   read: string -> UserPlanService.DiaryParse) returns (elements: seq<Element>)
    requires ValidParser(parse)
    ensures elements == Rendered(p, generatedAt, parse, read)
  {
    var document := new Document();
    var title := Paragraph("Omstillingsprofil", TitleFont);
    var generated := Paragraph("Generert: " + FormatDate(Some(generatedAt), parse), BodyFont);
    document.Add(title);
    document.Add(generated);
    document.Add(Spacer);
    ghost var expected := [title, generated, Spacer];
    assert document.elements == expected;
    AddUserSection(document, p, parse);
    expected := expected + UserSection(p, parse);
    AddPlanSection(document, p, parse, read);
    expected := expected + PlanSection(p, parse, read);
    AddJournalSection(document, p, parse);
    expected := expected + JournalSection(p, parse);
    AddRequestsSection(document, p, parse);
    expected := expected + RequestsSection(p, parse);
    AddInsurancesSection(document, p, parse);
    expected := expected + InsurancesSection(p, parse);
    AddSnapshotSection(document, p, parse);
    expected := expected + SnapshotSection(p, parse);
    assert document.elements == expected;
    elements := document.elements;
  }

  /** What the get_user_profile query gave: no row, the row's JSON (possibly null), or an exception. */
  datatype QueryResult = NoRow | Row(json: Option<string>) | QueryFailed(message: string)

  datatype PdfError = NotFound(reason: string) | IllegalState(message: string)

  datatype GeneratedPdf = GeneratedPdf(fileName: string, document: seq<Element>)

  /**
   * fetchUserProfile: no row, a null or blank JSON text or a JSON null is "no profile"; a failing
   * query or an unreadable text is the error "Feil ved henting av brukerprofil".
   */
  function FetchUserProfile(query: QueryResult, readProfile: string -> Result<Option<UserProfileAggregate>, string>)
    : (r: Result<Option<UserProfileAggregate>, PdfError>)
    ensures query.NoRow? ==> r == Ok(None)
    ensures query.Row? && (query.json.None? || IsBlank(query.json.value)) ==> r == Ok(None)
    ensures query.Row? && query.json.Some? && !IsBlank(query.json.value) ==>
      (r.Ok? <==> readProfile(query.json.value).Ok?) && (r.Ok? ==> r.value == readProfile(query.json.value).value)
    ensures r.Err? ==> r.error == IllegalState("Feil ved henting av brukerprofil")
    ensures query.QueryFailed? ==> r.Err?
  {
    match query
    case NoRow => Ok(None)
    case QueryFailed(_) => Err(IllegalState("Feil ved henting av brukerprofil"))
    case Row(json) =>
      if json.None? || IsBlank(json.value) then Ok(None)
      else
        match readProfile(json.value)
        case Ok(profile) => Ok(profile)
        case Err(_) => Err(IllegalState("Feil ved henting av brukerprofil"))
  }

  /** The download's name: user_profile_, the user's id, _, the clock's yyyyMMddHHmm and .pdf. */
  function FileName(userId: int, now: InsuranceXml.LocalDateTime): (r: string)
    requires InsuranceXml.ValidDateTime(now)
    ensures StartsWith(r, "user_profile_" + IntToString(userId) + "_")
    ensures 1 <= now.year <= 9999 ==> |r| == |"user_profile_" + IntToString(userId) + "_"| + 16
  {
    var prefix := "user_profile_" + IntToString(userId) + "_";
    var r := prefix + (FileTimestamp(now) + ".pdf");
    assert r[..|prefix|] == prefix;
    r
  }

  /**
   * generateUserProfilePdf: "Fant ikke brukerprofil." when there is no profile, the fetch error
   * when it failed, else the rendered document under its file name.
   */
  method GenerateUserProfilePdf(userId: int, query: QueryResult,
                                readProfile: string -> Result<Option<UserProfileAggregate>, string>,
                                read: string -> UserPlanService.DiaryParse,
                                parse: string -> Option<InsuranceXml.LocalDateTime>,
                                generatedAt: string, now: InsuranceXml.LocalDateTime)
    returns (r: Result<GeneratedPdf, PdfError>)
    requires ValidParser(parse) && InsuranceXml.ValidDateTime(now)
    ensures var fetched := FetchUserProfile(query, readProfile);
      && (fetched.Err? ==> r == Err(fetched.error))
      && (fetched == Ok(None) ==> r == Err(NotFound("Fant ikke brukerprofil.")))
      && (fetched.Ok? && fetched.value.Some? ==>
            r == Ok(GeneratedPdf(FileName(userId, now), Rendered(fetched.value.value, generatedAt, parse, read))))
  {
    var fetched := FetchUserProfile(query, readProfile);
    if fetched.Err? {
      return Err(fetched.error);
    }
    if fetched.value.None? {
      return Err(NotFound("Fant ikke brukerprofil."));
    }
    var elements := RenderPdf(fetched.value.value, generatedAt, parse, read);
    r := Ok(GeneratedPdf(FileName(userId, now), elements));
  }

  /** Every section of a profile without plan, journal, requests, insurances or snapshot says so in its fixed sentence. */
  lemma EmptyProfileSentences(p: UserProfileAggregate, parse: string -> Option<InsuranceXml.LocalDateTime>)
    requires ValidParser(parse)
    requires p.journalEntries.GetOr([]) == [] && p.requests.GetOr([]) == [] && p.insurances.GetOr([]) == [] && p.snapshot.None?
    ensures Paragraph("Ingen journalinnslag.", BodyFont) in JournalSection(p, parse)
    ensures Paragraph("Ingen forespørsler.", BodyFont) in RequestsSection(p, parse)
    ensures Paragraph("Ingen registrerte forsikringer.", BodyFont) in InsurancesSection(p, parse)
    ensures Paragraph("Ingen snapshot registrert.", BodyFont) in SnapshotSection(p, parse)
  {
  }
}
