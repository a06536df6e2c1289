/**
 * The user's plan: one row per user holding the current phase, a persona, the needs as one
 * comma-separated string and a diary per phase stored as a JSON object. Jackson's reading and
 * writing of that object are the parameters `parse` and `serialize`.
 */
module UserPlanService {
  import opened Wrappers
  import opened Text

  type Diaries = map<string, string>

  /** What reading the diary column as a JSON object of strings gives. */
  datatype DiaryParse = Parsed(entries: Diaries) | NullDocument | NotAMap

  datatype PlanRow = PlanRow(userId: int, phase: Option<string>, persona: Option<string>, needs: Option<string>,
                             diary: Option<string>, createdAt: Option<int>, updatedAt: Option<int>)

  datatype UpdateRequest = UpdateRequest(persona: Option<string>, phase: Option<string>, needs: Option<seq<string>>,
                                         diary: Option<string>)

  datatype PlanDto = PlanDto(persona: Option<string>, phase: Option<string>, needs: seq<string>, diary: Option<string>,
                             diaries: Diaries, createdAt: Option<int>, updatedAt: Option<int>)

  datatype StoreError = PhaseMissing

  /** Each need with its commas turned into spaces. */
  function Sanitized(needs: seq<string>): (r: seq<string>)
    ensures |r| == |needs|
    ensures forall i :: 0 <= i < |r| ==> r[i] == ReplaceChar(needs[i], ',', ' ') && ',' !in r[i]
  {
    if |needs| == 0 then [] else [ReplaceChar(needs[0], ',', ' ')] + Sanitized(needs[1..])
  }

  /** A part as the needs column keeps it: non-empty, not starting or ending in whitespace. */
  predicate Trimmed(part: string) {
    part != [] && Trim(part) == part
  }

  /** The trimmed parts, without the ones that trim to nothing. */
  function Cleaned(parts: seq<string>): (r: seq<string>)
    ensures |r| <= |parts|
    ensures forall i :: 0 <= i < |r| ==> Trimmed(r[i])
  {
    if |parts| == 0 then []
    else
      var head := TrimmedPart(parts[0]);
      var rest := Cleaned(parts[1..]);
      TrimmedAppend(head, rest);
      head + rest
  }

  /** The part trimmed, or nothing when it trims to nothing. */
  function TrimmedPart(part: string): (r: seq<string>)
    ensures r == [] <==> IsBlank(part)
    ensures r != [] ==> r == [Trim(part)] && Trimmed(Trim(part))
  {
    var t := Trim(part);
    TrimIdempotent(part);
    if t == [] then [] else [t]
  }

  lemma TrimmedAppend(a: seq<string>, b: seq<string>)
    requires forall i :: 0 <= i < |a| ==> Trimmed(a[i])
    requires forall i :: 0 <= i < |b| ==> Trimmed(b[i])
    ensures forall i :: 0 <= i < |a + b| ==> Trimmed((a + b)[i])
  {
    forall i | 0 <= i < |a + b|
      ensures Trimmed((a + b)[i])
    {
      if i < |a| {
        assert (a + b)[i] == a[i];
      } else {
        assert (a + b)[i] == b[i - |a|];
      }
    }
  }

  /** joinNeeds: null for a null or empty list; otherwise one string that splits back into the sanitised needs. */
  function JoinNeeds(needs: Option<seq<string>>): (r: Option<string>)
    ensures r.None? <==> needs.None? || |needs.value| == 0
    ensures r.Some? ==> Split(r.value, ',') == Sanitized(needs.value)
  {
    if needs.None? || |needs.value| == 0 then None
    else
      SplitJoin(Sanitized(needs.value), ',');
      Some(Join(Sanitized(needs.value), ','))
  }

  /** splitNeeds: nothing for a null or blank column, else the trimmed non-empty comma-separated parts. */
  function SplitNeeds(needs: Option<string>): (r: seq<string>)
    ensures needs.None? || IsBlank(needs.value) ==> r == []
    ensures forall i :: 0 <= i < |r| ==> r[i] != [] && ',' !in r[i]
  {
    if needs.None? || IsBlank(needs.value) then []
    else
      var parts := Split(needs.value, ',');
      CleanedKeepsSeparatorFree(parts, ',');
      Cleaned(parts)
  }

  lemma {:induction false} CleanedKeepsSeparatorFree(parts: seq<string>, sep: char)
    requires forall i :: 0 <= i < |parts| ==> sep !in parts[i]
    ensures forall i :: 0 <= i < |Cleaned(parts)| ==> sep !in Cleaned(parts)[i]
  {
    if |parts| > 0 {
      var rest := Cleaned(parts[1..]);
      var head := TrimmedPart(parts[0]);
      assert Cleaned(parts) == head + rest;
      CleanedKeepsSeparatorFree(parts[1..], sep);
      TrimInside(parts[0], sep);
      assert forall i :: 0 <= i < |head| ==> sep !in head[i];
      SeparatorFreeAppend(head, rest, sep);
    }
  }

  lemma SeparatorFreeAppend(a: seq<string>, b: seq<string>, sep: char)
    requires forall i :: 0 <= i < |a| ==> sep !in a[i]
    requires forall i :: 0 <= i < |b| ==> sep !in b[i]
    ensures forall i :: 0 <= i < |a + b| ==> sep !in (a + b)[i]
  {
    forall i | 0 <= i < |a + b|
      ensures sep !in (a + b)[i]
    {
      if i < |a| {
        assert (a + b)[i] == a[i];
      } else {
        assert (a + b)[i] == b[i - |a|];
      }
    }
  }

  /** Trimming keeps a character out of a string that lacks it. */
  lemma TrimInside(s: string, c: char)
    requires c !in s
    ensures c !in Trim(s)
  {
    var t := TrimStart(s);
    assert t == s[|s| - |t|..];
    assert c !in t;
    assert TrimEnd(t) == t[..|TrimEnd(t)|];
  }

  /** The needs read back are the stored ones with commas replaced, trimmed, and the empty ones dropped. */
  lemma NeedsRoundTrip(needs: Option<seq<string>>)
    ensures SplitNeeds(JoinNeeds(needs)) == if needs.None? then [] else Cleaned(Sanitized(needs.value))
  {
    if needs.Some? && |needs.value| > 0 {
      var parts := Sanitized(needs.value);
      var joined := Join(parts, ',');
      assert JoinNeeds(needs) == Some(joined);
      if IsBlank(joined) {
        if |parts| > 1 {
          JoinSeparatorAt(parts, ',');
          assert false;
        }
        assert joined == parts[0];
        BlankTrimsToEmpty(parts[0]);
        assert Cleaned(parts) == Cleaned(parts[1..]);
      } else {
        assert Split(joined, ',') == parts;
      }
    }
  }

  lemma JoinSeparatorAt(parts: seq<string>, sep: char)
    requires |parts| > 1
    ensures |parts[0]| < |Join(parts, sep)| && Join(parts, sep)[|parts[0]|] == sep
  {
    assert Join(parts, sep) == parts[0] + [sep] + Join(parts[1..], sep);
  }

  lemma BlankTrimsToEmpty(s: string)
    requires IsBlank(s)
    ensures Trim(s) == []
  {
  }

  /** A blank phase, or none, names no diary entry. */
  predicate NamedPhase(phase: Option<string>) {
    phase.Some? && !IsBlank(phase.value)
  }

  /**
   * parseDiaryMap: a null or blank column is the empty map, a JSON object is taken as it is, a
   * JSON null is the empty map, and any other text is kept whole as the diary of the current phase,
   * or dropped when there is no named phase.
   */
  function ParseDiaryMap(raw: Option<string>, phase: Option<string>, parse: string -> DiaryParse): (r: Diaries)
    ensures raw.None? || IsBlank(raw.value) ==> r == map[]
    ensures raw.Some? && !IsBlank(raw.value) && parse(raw.value).Parsed? ==> r == parse(raw.value).entries
    ensures raw.Some? && !IsBlank(raw.value) && parse(raw.value).NullDocument? ==> r == map[]
    ensures raw.Some? && !IsBlank(raw.value) && parse(raw.value).NotAMap? ==>
      r == if NamedPhase(phase) then map[phase.value := raw.value] else map[]
  {
    if raw.None? || IsBlank(raw.value) then map[]
    else
      match parse(raw.value)
      case Parsed(entries) => entries
      case NullDocument => map[]
      case NotAMap => if NamedPhase(phase) then map[phase.value := raw.value] else map[]
  }

  /** serializeDiaryMap: an empty map is stored as null. */
  function SerializeDiaryMap(diaries: Diaries, serialize: Diaries -> string): (r: Option<string>)
    ensures r.None? <==> |diaries| == 0
  {
    if |diaries| == 0 then None else Some(serialize(diaries))
  }

  /** The JSON codec reads back what it wrote, and what it writes is not blank. */
  ghost predicate Codec(parse: string -> DiaryParse, serialize: Diaries -> string) {
    forall d :: parse(serialize(d)) == Parsed(d) && !IsBlank(serialize(d))
  }

  /** Writing a diary map and reading it back gives the same map, the empty one included. */
  lemma DiaryRoundTrip(diaries: Diaries, phase: Option<string>, parse: string -> DiaryParse, serialize: Diaries -> string)
    requires Codec(parse, serialize)
    ensures ParseDiaryMap(SerializeDiaryMap(diaries, serialize), phase, parse) == diaries
  {
    if |diaries| != 0 {
      assert parse(serialize(diaries)) == Parsed(diaries) && !IsBlank(serialize(diaries));
    }
  }

  /** The diary map after the request: the requested phase's entry replaced when both phase and diary are given. */
  function PutDiary(diaries: Diaries, request: UpdateRequest): (r: Diaries)
    ensures NamedPhase(request.phase) && request.diary.Some? ==> r == diaries[request.phase.value := request.diary.value]
    ensures !(NamedPhase(request.phase) && request.diary.Some?) ==> r == diaries
  {
    if NamedPhase(request.phase) && request.diary.Some? then diaries[request.phase.value := request.diary.value]
    else diaries
  }

  /** toDto: needs split, diaries parsed, and the diary of the current phase picked out of them. */
  function ToDto(row: PlanRow, parse: string -> DiaryParse): (d: PlanDto)
    ensures d.persona == row.persona && d.phase == row.phase && d.needs == SplitNeeds(row.needs)
    ensures d.diaries == ParseDiaryMap(row.diary, row.phase, parse)
    ensures d.diary.Some? <==> row.phase.Some? && row.phase.value in d.diaries
    ensures d.diary.Some? ==> d.diary.value == d.diaries[row.phase.value]
    ensures d.createdAt == row.createdAt && d.updatedAt == row.updatedAt
  {
    var diaries := ParseDiaryMap(row.diary, row.phase, parse);
    var diary := if row.phase.Some? && row.phase.value in diaries then Some(diaries[row.phase.value]) else None;
    PlanDto(row.persona, row.phase, SplitNeeds(row.needs), diary, diaries, row.createdAt, row.updatedAt)
  }

  /** The entity upsert starts from when the user has no plan yet. */
  function NewPlan(userId: int): (r: PlanRow)
    ensures r.userId == userId && r.phase == Some("")
    ensures r.persona.None? && r.needs.None? && r.diary.None? && r.createdAt.None? && r.updatedAt.None?
  {
    PlanRow(userId, Some(""), None, None, None, None, None)
  }

  /** The entity after upsert's setters, before the repository saves it. */
  function Upserted(row: PlanRow, request: UpdateRequest, parse: string -> DiaryParse, serialize: Diaries -> string)
    : (r: PlanRow)
    ensures r.userId == row.userId && r.createdAt == row.createdAt && r.updatedAt == row.updatedAt
    ensures r.phase == request.phase && r.persona == request.persona && r.needs == JoinNeeds(request.needs)
    ensures r.diary == SerializeDiaryMap(PutDiary(ParseDiaryMap(row.diary, row.phase, parse), request), serialize)
  {
    var diaries := PutDiary(ParseDiaryMap(row.diary, row.phase, parse), request);
    row.(phase := request.phase, persona := request.persona, needs := JoinNeeds(request.needs),
         diary := SerializeDiaryMap(diaries, serialize))
  }

  /** The plans by user id; the unique user_id index makes the user id the key. */
  class PlanRepository {
    var plans: map<int, PlanRow>

    predicate Valid()
      reads this
    {
      forall u :: u in plans ==> plans[u].userId == u && plans[u].phase.Some?
    }

    constructor ()
      ensures Valid() && plans == map[]
    {
      plans := map[];
    }

    function FindByUserId(userId: int): (r: Option<PlanRow>)
      reads this
      ensures r.Some? <==> userId in plans
      ensures r.Some? ==> r.value == plans[userId]
    {
      if userId in plans then Some(plans[userId]) else None
    }

    /**
     * save() and the commit of the surrounding transaction: the phase column is not null, so a null
     * phase stores nothing. A new plan is persisted at once and gets both timestamps from the
     * PrePersist hook before save returns it. A stored plan is managed: save returns the entity as
     * it is, and the PreUpdate hook stamps a changed one only when the transaction commits, after
     * the caller has read what save returned.
     */
    method Save(row: PlanRow, now: int) returns (r: Result<PlanRow, StoreError>)
      requires Valid()
      modifies this
      ensures Valid()
      ensures r.Err? <==> row.phase.None?
      ensures r.Err? ==> plans == old(plans)
      ensures r.Ok? && row.userId !in old(plans) ==>
        r.value == row.(createdAt := Some(now), updatedAt := Some(now)) && plans == old(plans)[row.userId := r.value]
      ensures r.Ok? && row.userId in old(plans) ==>
        r.value == row && plans == old(plans)[row.userId := if old(plans)[row.userId] == row then row else row.(updatedAt := Some(now))]
    {
      if row.phase.None? {
        return Err(PhaseMissing);
      }
      if row.userId !in plans {
        var stored := row.(createdAt := Some(now), updatedAt := Some(now));
        plans := plans[row.userId := stored];
        r := Ok(stored);
      } else {
        var committed := if plans[row.userId] == row then row else row.(updatedAt := Some(now));
        plans := plans[row.userId := committed];
        r := Ok(row);
      }
    }
  }

  /** getPlanForUser: the stored plan as a DTO, or empty. */
  function GetPlanForUser(plans: map<int, PlanRow>, userId: int, parse: string -> DiaryParse): (r: Option<PlanDto>)
    ensures r.Some? <==> userId in plans
    ensures r.Some? ==> r.value == ToDto(plans[userId], parse)
  {
    if userId in plans then Some(ToDto(plans[userId], parse)) else None
  }

  /** upsertPlanForUser: load or start the plan, put the diary entry, overwrite the fields, save and map. */
  method UpsertPlanForUser(repository: PlanRepository, userId: int, request: UpdateRequest,
                           parse: string -> DiaryParse, serialize: Diaries -> string, now: int)
    returns (r: Result<PlanDto, StoreError>)
    requires repository.Valid()
    modifies repository
    ensures repository.Valid()
    ensures var base := if userId in old(repository.plans) then old(repository.plans)[userId] else NewPlan(userId);
      var entity := Upserted(base, request, parse, serialize);
      && (r.Err? <==> request.phase.None?)
      && (r.Err? ==> repository.plans == old(repository.plans))
      && (r.Ok? ==> userId in repository.plans && repository.plans == old(repository.plans)[userId := repository.plans[userId]]
                    && repository.plans[userId].(createdAt := entity.createdAt, updatedAt := entity.updatedAt) == entity)
      && (r.Ok? && userId !in old(repository.plans) ==>
            r.value == ToDto(repository.plans[userId], parse) && r.value.createdAt == Some(now) && r.value.updatedAt == Some(now))
      && (r.Ok? && userId in old(repository.plans) ==>
            r.value == ToDto(entity, parse) && r.value.createdAt == base.createdAt && r.value.updatedAt == base.updatedAt)
  {
    var found := repository.FindByUserId(userId);
    var entity := if found.Some? then found.value else NewPlan(userId);
    var diaries := ParseDiaryMap(entity.diary, entity.phase, parse);
    if request.phase.Some? && !IsBlank(request.phase.value) && request.diary.Some? {
      diaries := diaries[request.phase.value := request.diary.value];
    }
    entity := entity.(phase := request.phase);
    entity := entity.(persona := request.persona);
    entity := entity.(needs := JoinNeeds(request.needs));
    entity := entity.(diary := SerializeDiaryMap(diaries, serialize));
    var saved := repository.Save(entity, now);
    if saved.Err? {
      return Err(saved.error);
    }
    r := Ok(ToDto(saved.value, parse));
  }

  /** After an upsert naming a phase and a diary, that phase's diary is the new one and every other phase keeps its entry. */
  lemma UpsertPutsDiary(row: PlanRow, request: UpdateRequest, parse: string -> DiaryParse, serialize: Diaries -> string)
    requires Codec(parse, serialize)
    requires NamedPhase(request.phase) && request.diary.Some?
    ensures var after := ToDto(Upserted(row, request, parse, serialize), parse);
      var before := ParseDiaryMap(row.diary, row.phase, parse);
      && after.diary == request.diary
      && after.diaries == before[request.phase.value := request.diary.value]
      && forall p :: p in before && p != request.phase.value ==> p in after.diaries && after.diaries[p] == before[p]
  {
    var before := ParseDiaryMap(row.diary, row.phase, parse);
    DiaryRoundTrip(PutDiary(before, request), request.phase, parse, serialize);
  }

  /** An upsert without a named phase or without a diary leaves the diary map as it read it. */
  lemma UpsertKeepsDiaries(row: PlanRow, request: UpdateRequest, parse: string -> DiaryParse, serialize: Diaries -> string)
    requires Codec(parse, serialize)
    requires !NamedPhase(request.phase) || request.diary.None?
    ensures ToDto(Upserted(row, request, parse, serialize), parse).diaries == ParseDiaryMap(row.diary, row.phase, parse)
  {
    DiaryRoundTrip(ParseDiaryMap(row.diary, row.phase, parse), request.phase, parse, serialize);
  }

  /** A diary column holding plain text survives an upsert as the entry of the phase it was written under. */
  lemma LegacyDiaryKept(row: PlanRow, request: UpdateRequest, parse: string -> DiaryParse, serialize: Diaries -> string)
    requires Codec(parse, serialize)
    requires row.diary.Some? && !IsBlank(row.diary.value) && parse(row.diary.value).NotAMap?
    requires NamedPhase(row.phase) && (request.phase != row.phase || request.diary.None?)
    ensures var after := ToDto(Upserted(row, request, parse, serialize), parse);
      row.phase.value in after.diaries && after.diaries[row.phase.value] == row.diary.value
  {
    var before := ParseDiaryMap(row.diary, row.phase, parse);
    assert before == map[row.phase.value := row.diary.value];
    DiaryRoundTrip(PutDiary(before, request), request.phase, parse, serialize);
  }
}
