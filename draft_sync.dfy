/**
 * Drafts the user makes before logging in live in localStorage with a pending flag; after login they
 * are sent to the server and removed, but only once every request for them has succeeded, so a
 * failed sync leaves everything in place to be sent again. JSON.parse is a parameter; the server is
 * an endpoint that records each request it receives and answers the n-th one as `accepts` says.
 */
module DraftSync {
  import opened Wrappers
  import opened Json
  import opened LocalStorage
  import Sequences

  const PlanKey: string := "myPlan"
  const PlanDiariesKey: string := "myPlanDiaries"
  const PlanPendingKey: string := "myPlanPendingSync"
  const InsuranceKey: string := "insuranceSnapshotDraft"
  const InsurancePendingKey: string := "insuranceSnapshotPending"
  const DefaultPersona: string := "Annet"
  const DefaultPhase: string := "For omstilling"

  /** A server endpoint: the requests it received, in order, and whether it accepts the n-th. */
  class Endpoint<B> {
    var received: seq<B>
    const accepts: nat -> bool

    constructor (accepts: nat -> bool)
      ensures received == [] && this.accepts == accepts
    {
      received := [];
      this.accepts := accepts;
    }

    /** One awaited request: it reaches the server, and resolves or rejects. */
    method Send(body: B) returns (ok: bool)
      modifies this
      ensures received == old(received) + [body]
      ensures ok == accepts(|old(received)|)
    {
      ok := accepts(|received|);
      received := received + [body];
    }
  }

  /** The body of PUT /plan/me; an undefined diary is left out of the JSON. */
  datatype PlanBody = PlanBody(persona: JsonValue, phase: JsonValue, needs: JsonValue, diary: Option<JsonValue>)

  /** The body saveInsuranceSnapshot sends: the draft's source, types and uncertain, undefined when missing. */
  datatype InsuranceBody = InsuranceBody(source: Option<JsonValue>, types: Option<JsonValue>, uncertain: Option<JsonValue>)

  /** readJson: nothing for a missing or empty item or one JSON.parse rejects. */
  function ReadJson(items: map<string, string>, key: string, parse: string -> Option<JsonValue>): (r: Option<JsonValue>)
    ensures key !in items || items[key] == "" ==> r.None?
    ensures key in items && items[key] != "" ==> r == parse(items[key])
  {
    if key !in items || items[key] == "" then None else parse(items[key])
  }

  /** readPlanDiariesDraft: the stored diaries, or {} when there are none. */
  function Diaries(items: map<string, string>, parse: string -> Option<JsonValue>): (r: JsonValue)
    ensures ReadJson(items, PlanDiariesKey, parse).None? ==> r == JObject([])
  {
    match ReadJson(items, PlanDiariesKey, parse)
    case None => JObject([])
    case Some(JNull) => JObject([])
    case Some(v) => v
  }

  /** value ?? fallback on a property of the draft. */
  function PropertyOr(draft: JsonValue, key: string, fallback: JsonValue): (r: JsonValue)
    ensures Get(draft, key).None? || Get(draft, key) == Some(JNull) ==> r == fallback
    ensures Get(draft, key).Some? && Get(draft, key) != Some(JNull) ==> r == Get(draft, key).value
  {
    match Get(draft, key)
    case None => fallback
    case Some(JNull) => fallback
    case Some(v) => v
  }

  function Persona(draft: JsonValue): JsonValue {
    PropertyOr(draft, "persona", JString(DefaultPersona))
  }

  function Phase(draft: JsonValue): JsonValue {
    PropertyOr(draft, "phase", JString(DefaultPhase))
  }

  /** Array.isArray(draft.needs) ? draft.needs : []. */
  function Needs(draft: JsonValue): (r: JsonValue)
    ensures r.JArray?
  {
    match Get(draft, "needs")
    case Some(JArray(items)) => JArray(items)
    case _ => JArray([])
  }

  /** Object.entries of the diaries object. */
  function DiaryEntries(diaries: JsonValue): seq<(string, JsonValue)> {
    if diaries.JObject? then diaries.fields else []
  }

  /** diaries[phase], for a phase that is a string. */
  function MainDiary(diaries: JsonValue, phase: JsonValue): Option<JsonValue> {
    if diaries.JObject? && phase.JString? then Lookup(diaries.fields, phase.s) else None
  }

  /** One PUT per diary entry with a truthy value, in entry order, each under its own phase. */
  function DiaryRequests(persona: JsonValue, needs: JsonValue, entries: seq<(string, JsonValue)>): (r: seq<PlanBody>)
    ensures |r| <= |entries|
  {
    if entries == [] then []
    else
      var rest := DiaryRequests(persona, needs, entries[1..]);
      if Truthy(entries[0].1) then [PlanBody(persona, JString(entries[0].0), needs, Some(entries[0].1))] + rest else rest
  }

  /** Every diary request carries the draft's persona and needs and a truthy diary. */
  lemma {:induction false} DiaryRequestsShape(persona: JsonValue, needs: JsonValue, entries: seq<(string, JsonValue)>)
    ensures forall r <- DiaryRequests(persona, needs, entries) ::
      r.persona == persona && r.needs == needs && r.diary.Some? && Truthy(r.diary.value)
  {
    if entries != [] {
      DiaryRequestsShape(persona, needs, entries[1..]);
    }
  }

  lemma {:induction false} DiaryRequestsAppend(persona: JsonValue, needs: JsonValue, a: seq<(string, JsonValue)>, b: seq<(string, JsonValue)>)
    ensures DiaryRequests(persona, needs, a + b) == DiaryRequests(persona, needs, a) + DiaryRequests(persona, needs, b)
  {
    if a == [] {
      assert a + b == b;
    } else {
      assert (a + b)[1..] == a[1..] + b;
      DiaryRequestsAppend(persona, needs, a[1..], b);
    }
  }

  /** The main plan request first, then one per diary entry. */
  function PlanRequests(draft: JsonValue, diaries: JsonValue): (r: seq<PlanBody>)
    ensures |r| >= 1
    ensures r[0] == PlanBody(Persona(draft), Phase(draft), Needs(draft), MainDiary(diaries, Phase(draft)))
  {
    [PlanBody(Persona(draft), Phase(draft), Needs(draft), MainDiary(diaries, Phase(draft)))]
      + DiaryRequests(Persona(draft), Needs(draft), DiaryEntries(diaries))
  }

  /** The requests a plan sync wants to make: none without the pending flag or without a truthy draft. */
  function PlanSyncRequests(items: map<string, string>, parse: string -> Option<JsonValue>): seq<PlanBody> {
    if Falsy(if PlanPendingKey in items then Some(items[PlanPendingKey]) else None) then []
    else match ReadJson(items, PlanKey, parse)
      case Some(draft) => if Truthy(draft) then PlanRequests(draft, Diaries(items, parse)) else []
      case None => []
  }

  /** Requests sent one after another from the start-th on: each is sent, and the first rejected one ends the run. */
  function Sent<B>(requests: seq<B>, start: nat, accepts: nat -> bool): (r: seq<B>)
    ensures |r| <= |requests|
  {
    if requests == [] then []
    else [requests[0]] + (if accepts(start) then Sent(requests[1..], start + 1, accepts) else [])
  }

  /** What is sent is a prefix of the requests, and all of them unless one was rejected. */
  lemma {:induction false} SentPrefix<B>(requests: seq<B>, start: nat, accepts: nat -> bool)
    ensures Sent(requests, start, accepts) == requests[..|Sent(requests, start, accepts)|]
    ensures |Sent(requests, start, accepts)| < |requests| ==> !AllAccepted(|requests|, start, accepts)
  {
    if requests != [] && accepts(start) {
      SentPrefix(requests[1..], start + 1, accepts);
    }
  }

  predicate AllAccepted(count: nat, start: nat, accepts: nat -> bool) {
    forall i :: start <= i < start + count ==> accepts(i)
  }

  /** The first request is sent; the rest follow only if it is accepted. */
  lemma SentCons<B>(first: B, rest: seq<B>, start: nat, accepts: nat -> bool)
    ensures Sent([first] + rest, start, accepts) == [first] + (if accepts(start) then Sent(rest, start + 1, accepts) else [])
    ensures AllAccepted(|[first] + rest|, start, accepts) <==> accepts(start) && AllAccepted(|rest|, start + 1, accepts)
  {
    assert ([first] + rest)[1..] == rest;
    AcceptedCons(|rest|, start, accepts);
  }

  /** A run of count + 1 from start is accepted exactly when start is and the count after it are. */
  lemma AcceptedCons(count: nat, start: nat, accepts: nat -> bool)
    ensures AllAccepted(count + 1, start, accepts) <==> accepts(start) && AllAccepted(count, start + 1, accepts)
  {
    if accepts(start) && AllAccepted(count, start + 1, accepts) {
      forall i | start <= i < start + count + 1
        ensures accepts(i)
      {
        if i > start {
          assert start + 1 <= i < start + 1 + count;
        }
      }
    }
    if AllAccepted(count + 1, start, accepts) {
      assert start <= start < start + count + 1;
      forall i | start + 1 <= i < start + 1 + count
        ensures accepts(i)
      {
        assert start <= i < start + (count + 1);
      }
    }
  }

  lemma {:induction false} SentAll<B>(requests: seq<B>, start: nat, accepts: nat -> bool)
    requires AllAccepted(|requests|, start, accepts)
    ensures Sent(requests, start, accepts) == requests
  {
    if requests != [] {
      SentAll(requests[1..], start + 1, accepts);
    }
  }

  lemma {:induction false} SentUntilRejected<B>(done: seq<B>, failed: B, rest: seq<B>, start: nat, accepts: nat -> bool)
    requires AllAccepted(|done|, start, accepts) && !accepts(start + |done|)
    ensures Sent(done + [failed] + rest, start, accepts) == done + [failed]
  {
    var all := done + [failed] + rest;
    if done == [] {
      assert all[0] == failed;
    } else {
      assert all[1..] == done[1..] + [failed] + rest;
      SentUntilRejected(done[1..], failed, rest, start + 1, accepts);
    }
  }

  /** The stored items after a plan sync whose requests start at the start-th the server sees. */
  function PlanSyncItems(items: map<string, string>, parse: string -> Option<JsonValue>, accepts: nat -> bool, start: nat): map<string, string> {
    if Falsy(if PlanPendingKey in items then Some(items[PlanPendingKey]) else None) then items
    else match ReadJson(items, PlanKey, parse)
      case Some(draft) =>
        if !Truthy(draft) then items - {PlanPendingKey}
        else if AllAccepted(|PlanRequests(draft, Diaries(items, parse))|, start, accepts) then items - {PlanPendingKey, PlanKey, PlanDiariesKey}
        else items
      case None => items - {PlanPendingKey}
  }

  lemma DiaryStep(persona: JsonValue, needs: JsonValue, entries: seq<(string, JsonValue)>, i: nat)
    requires i < |entries|
    ensures DiaryRequests(persona, needs, entries[..i + 1]) == DiaryRequests(persona, needs, entries[..i]) +
      (if Truthy(entries[i].1) then [PlanBody(persona, JString(entries[i].0), needs, Some(entries[i].1))] else [])
  {
    assert entries[..i + 1] == entries[..i] + [entries[i]];
    DiaryRequestsAppend(persona, needs, entries[..i], [entries[i]]);
  }

  /** A rejection of the i-th entry's request ends the run there, with not all of them accepted. */
  lemma DiaryRejectedAt(persona: JsonValue, needs: JsonValue, entries: seq<(string, JsonValue)>, i: nat, start: nat, accepts: nat -> bool)
    requires i < |entries| && Truthy(entries[i].1)
    requires AllAccepted(|DiaryRequests(persona, needs, entries[..i])|, start, accepts)
    requires !accepts(start + |DiaryRequests(persona, needs, entries[..i])|)
    ensures Sent(DiaryRequests(persona, needs, entries), start, accepts) == DiaryRequests(persona, needs, entries[..i + 1])
    ensures !AllAccepted(|DiaryRequests(persona, needs, entries)|, start, accepts)
  {
    var done := DiaryRequests(persona, needs, entries[..i]);
    var body := PlanBody(persona, JString(entries[i].0), needs, Some(entries[i].1));
    var rest := DiaryRequests(persona, needs, entries[i + 1..]);
    assert entries[..i + 1] == entries[..i] + [entries[i]];
    assert entries[..i + 1] + entries[i + 1..] == entries;
    DiaryRequestsAppend(persona, needs, entries[..i], [entries[i]]);
    DiaryRequestsAppend(persona, needs, entries[..i + 1], entries[i + 1..]);
    assert DiaryRequests(persona, needs, [entries[i]]) == [body];
    SentUntilRejected(done, body, rest, start, accepts);
    assert !accepts(start + |done|);
  }

  /** The diary loop of syncPlanDraft: each truthy entry in turn, stopping at the first failure. */
  method SendDiaries(api: Endpoint<PlanBody>, persona: JsonValue, needs: JsonValue, entries: seq<(string, JsonValue)>)
    returns (ok: bool)
    modifies api
    ensures api.received == old(api.received) + Sent(DiaryRequests(persona, needs, entries), |old(api.received)|, api.accepts)
    ensures ok == AllAccepted(|DiaryRequests(persona, needs, entries)|, |old(api.received)|, api.accepts)
  {
    ghost var start := |api.received|;
    ghost var sent: seq<PlanBody> := [];
    var i := 0;
    while i < |entries|
      invariant 0 <= i <= |entries|
      invariant sent == DiaryRequests(persona, needs, entries[..i])
      invariant api.received == old(api.received) + sent
      invariant AllAccepted(|sent|, start, api.accepts)
    {
      DiaryStep(persona, needs, entries, i);
      if Truthy(entries[i].1) {
        var body := PlanBody(persona, JString(entries[i].0), needs, Some(entries[i].1));
        ok := api.Send(body);
        if !ok {
          DiaryRejectedAt(persona, needs, entries, i, start, api.accepts);
          return;
        }
        sent := sent + [body];
      }
      i := i + 1;
    }
    assert entries[..i] == entries;
    SentAll(sent, start, api.accepts);
    ok := true;
  }

  /** The requests of one draft: the main plan, then the diary run unless the main plan was rejected. */
  method SendPlan(api: Endpoint<PlanBody>, main: PlanBody, entries: seq<(string, JsonValue)>) returns (ok: bool)
    modifies api
    ensures api.received == old(api.received) + Sent([main] + DiaryRequests(main.persona, main.needs, entries), |old(api.received)|, api.accepts)
    ensures ok == AllAccepted(|[main] + DiaryRequests(main.persona, main.needs, entries)|, |old(api.received)|, api.accepts)
  {
    ghost var before := api.received;
    ghost var rest := DiaryRequests(main.persona, main.needs, entries);
    ok := api.Send(main);
    if !ok {
      FirstRejected(before, main, rest, |before|, api.accepts);
      return;
    }
    ok := SendDiaries(api, main.persona, main.needs, entries);
    FirstAccepted(before, main, rest, |before|, api.accepts);
    AcceptedCons(|rest|, |before|, api.accepts);
  }

  /** A rejected first request is the only one sent, and the run is not accepted. */
  lemma FirstRejected<B>(before: seq<B>, first: B, rest: seq<B>, start: nat, accepts: nat -> bool)
    requires !accepts(start)
    ensures before + [first] == before + Sent([first] + rest, start, accepts)
    ensures !AllAccepted(|[first] + rest|, start, accepts)
  {
    SentCons(first, rest, start, accepts);
  }

  /** After an accepted first request, the run is the first request followed by the run of the rest. */
  lemma FirstAccepted<B>(before: seq<B>, first: B, rest: seq<B>, start: nat, accepts: nat -> bool)
    requires accepts(start)
    ensures before + [first] + Sent(rest, start + 1, accepts) == before + Sent([first] + rest, start, accepts)
  {
    assert ([first] + rest)[1..] == rest;
    Sequences.Concat3(before, [first], Sent(rest, start + 1, accepts), []);
  }

  /**
   * syncPlanDraft: nothing without the pending flag; only the flag is cleared without a draft; else
   * the main plan and then each diary entry are sent in turn, stopping at the first failure, and the
   * three plan keys are removed only when every request succeeded.
   */
  method SyncPlanDraft(storage: Storage, api: Endpoint<PlanBody>, parse: string -> Option<JsonValue>)
    modifies storage, api
    ensures api.received == old(api.received) + Sent(PlanSyncRequests(old(storage.items), parse), |old(api.received)|, api.accepts)
    ensures storage.items == PlanSyncItems(old(storage.items), parse, api.accepts, |old(api.received)|)
  {
    if Falsy(storage.GetItem(PlanPendingKey)) {
      assert PlanSyncRequests(storage.items, parse) == [];
      return;
    }
    var draft := ReadJson(storage.items, PlanKey, parse);
    if draft.None? || !Truthy(draft.value) {
      assert PlanSyncRequests(storage.items, parse) == [];
      storage.RemoveItem(PlanPendingKey);
      return;
    }
    var diaries := Diaries(storage.items, parse);
    var phase := Phase(draft.value);
    var main := PlanBody(Persona(draft.value), phase, Needs(draft.value), MainDiary(diaries, phase));
    assert PlanSyncRequests(storage.items, parse) == [main] + DiaryRequests(main.persona, main.needs, DiaryEntries(diaries));
    var ok := SendPlan(api, main, DiaryEntries(diaries));
    if ok {
      ghost var items := storage.items;
      storage.RemoveItem(PlanPendingKey);
      storage.RemoveItem(PlanKey);
      storage.RemoveItem(PlanDiariesKey);
      RemoveThree(items, PlanPendingKey, PlanKey, PlanDiariesKey);
    }
  }

  /** Removing three keys one after another removes the three of them. */
  lemma RemoveThree(items: map<string, string>, a: string, b: string, c: string)
    ensures items - {a} - {b} - {c} == items - {a, b, c}
  {
    var left, right := items - {a} - {b} - {c}, items - {a, b, c};
    assert left.Keys == right.Keys;
    assert forall k | k in left :: left[k] == items[k] == right[k];
  }

  /** A sync that did not get through leaves the items as they were, so the next one sends the whole draft again. */
  lemma FailedPlanSyncReplays(items: map<string, string>, parse: string -> Option<JsonValue>, accepts: nat -> bool, start: nat)
    requires !AllAccepted(|PlanSyncRequests(items, parse)|, start, accepts)
    ensures PlanSyncItems(items, parse, accepts, start) == items
    ensures PlanSyncRequests(PlanSyncItems(items, parse, accepts, start), parse) == PlanSyncRequests(items, parse)
  {
  }

  /** After a sync that got through, or found nothing to send, the next sync sends nothing. */
  lemma CompletedPlanSyncIsFinal(items: map<string, string>, parse: string -> Option<JsonValue>, accepts: nat -> bool, start: nat)
    requires AllAccepted(|PlanSyncRequests(items, parse)|, start, accepts)
    ensures PlanSyncRequests(PlanSyncItems(items, parse, accepts, start), parse) == []
  {
  }

  /** The insurance sync's single request: none without the flag or without a truthy draft. */
  function InsuranceSyncRequests(items: map<string, string>, parse: string -> Option<JsonValue>): (r: seq<InsuranceBody>)
    ensures |r| <= 1
  {
    if Falsy(if InsurancePendingKey in items then Some(items[InsurancePendingKey]) else None) then []
    else match ReadJson(items, InsuranceKey, parse)
      case Some(draft) =>
        if Truthy(draft) then [InsuranceBody(Get(draft, "source"), Get(draft, "types"), Get(draft, "uncertain"))] else []
      case None => []
  }

  function InsuranceSyncItems(items: map<string, string>, parse: string -> Option<JsonValue>, accepted: bool): map<string, string> {
    if Falsy(if InsurancePendingKey in items then Some(items[InsurancePendingKey]) else None) then items
    else match ReadJson(items, InsuranceKey, parse)
      case Some(draft) =>
        if !Truthy(draft) then items - {InsurancePendingKey}
        else if accepted then items - {InsurancePendingKey, InsuranceKey}
        else items
      case None => items - {InsurancePendingKey}
  }

  /** syncInsuranceDraft: the same pattern with one request. */
  method SyncInsuranceDraft(storage: Storage, api: Endpoint<InsuranceBody>, parse: string -> Option<JsonValue>)
    modifies storage, api
    ensures api.received == old(api.received) + InsuranceSyncRequests(old(storage.items), parse)
    ensures storage.items == InsuranceSyncItems(old(storage.items), parse, api.accepts(|old(api.received)|))
  {
    if Falsy(storage.GetItem(InsurancePendingKey)) {
      return;
    }
    var draft := ReadJson(storage.items, InsuranceKey, parse);
    if draft.None? || !Truthy(draft.value) {
      storage.RemoveItem(InsurancePendingKey);
      return;
    }
    var ok := api.Send(InsuranceBody(Get(draft.value, "source"), Get(draft.value, "types"), Get(draft.value, "uncertain")));
    if ok {
      storage.RemoveItem(InsurancePendingKey);
      storage.RemoveItem(InsuranceKey);
    }
  }

  /** syncAnonymousDrafts: both syncs, when there is storage at all; they touch disjoint keys. */
  method SyncAnonymousDrafts(storage: Storage?, planApi: Endpoint<PlanBody>, insuranceApi: Endpoint<InsuranceBody>,
                             parse: string -> Option<JsonValue>)
    modifies storage, planApi, insuranceApi
    ensures storage == null ==> planApi.received == old(planApi.received) && insuranceApi.received == old(insuranceApi.received)
    ensures storage != null ==> planApi.received == old(planApi.received) + Sent(PlanSyncRequests(old(storage.items), parse), |old(planApi.received)|, planApi.accepts)
    ensures storage != null ==>
      insuranceApi.received == old(insuranceApi.received) + InsuranceSyncRequests(old(storage.items), parse)
    ensures storage != null ==>
      storage.items == InsuranceSyncItems(PlanSyncItems(old(storage.items), parse, planApi.accepts, |old(planApi.received)|),
                                          parse, insuranceApi.accepts(|old(insuranceApi.received)|))
  {
    if storage == null {
      return;
    }
    ghost var items := storage.items;
    SyncPlanDraft(storage, planApi, parse);
    PlanSyncKeepsInsuranceDraft(items, parse, planApi.accepts, |old(planApi.received)|);
    SyncInsuranceDraft(storage, insuranceApi, parse);
  }

  /** The plan sync leaves the insurance keys alone, so the insurance sync sees the same draft either way. */
  lemma PlanSyncKeepsInsuranceDraft(items: map<string, string>, parse: string -> Option<JsonValue>, accepts: nat -> bool, start: nat)
    ensures InsuranceSyncRequests(PlanSyncItems(items, parse, accepts, start), parse) == InsuranceSyncRequests(items, parse)
  {
    var after := PlanSyncItems(items, parse, accepts, start);
    assert forall k :: k != PlanPendingKey && k != PlanKey && k != PlanDiariesKey ==> (k in after <==> k in items);
    assert forall k :: k in after && k != PlanPendingKey && k != PlanKey && k != PlanDiariesKey ==> after[k] == items[k];
    assert ReadJson(after, InsuranceKey, parse) == ReadJson(items, InsuranceKey, parse);
  }

  /** markPlanPendingSync and markInsurancePendingSync: set the flag to '1' when there is storage. */
  method MarkPendingSync(storage: Storage?, pendingKey: string)
    modifies storage
    ensures storage != null ==> storage.items == old(storage.items)[pendingKey := "1"]
  {
    if storage == null {
      return;
    }
    storage.SetItem(pendingKey, "1");
  }

  /** Once the plan is marked pending, a sync sends the whole draft whenever a truthy draft is stored. */
  lemma MarkedPlanSyncs(items: map<string, string>, parse: string -> Option<JsonValue>)
    requires ReadJson(items, PlanKey, parse).Some? && Truthy(ReadJson(items, PlanKey, parse).value)
    ensures var marked := items[PlanPendingKey := "1"];
      PlanSyncRequests(marked, parse) == PlanRequests(ReadJson(items, PlanKey, parse).value, Diaries(items, parse))
  {
    var marked := items[PlanPendingKey := "1"];
    assert ReadJson(marked, PlanKey, parse) == ReadJson(items, PlanKey, parse);
    assert ReadJson(marked, PlanDiariesKey, parse) == ReadJson(items, PlanDiariesKey, parse);
  }

  /** writeJson: store the stringified value when there is storage. */
  method WriteJson(storage: Storage?, key: string, value: JsonValue, stringify: JsonValue -> string)
    modifies storage
    ensures storage != null ==> storage.items == old(storage.items)[key := stringify(value)]
  {
    if storage == null {
      return;
    }
    storage.SetItem(key, stringify(value));
  }

  /** A draft written and marked pending is what the next sync reads back, for a parse that inverts stringify. */
  lemma WrittenDraftRead(items: map<string, string>, draft: JsonValue, stringify: JsonValue -> string, parse: string -> Option<JsonValue>)
    requires stringify(draft) != "" && parse(stringify(draft)) == Some(draft)
    ensures ReadJson(items[PlanKey := stringify(draft)], PlanKey, parse) == Some(draft)
  {
  }
}
