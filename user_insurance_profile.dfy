/**
 * The insurances a user registers: a source (employer, private or other), provider and product
 * names, notes and a validity period. Registering parses the source first and stores nothing when
 * it is missing or unknown; listing returns the user's profiles newest first. Dates are day numbers.
 */
module UserInsuranceProfiles {
  import opened Wrappers
  import opened Text

  datatype Source = EMPLOYER | PRIVATE | OTHER

  /** Enum.name(). */
  function SourceName(s: Source): string {
    match s
    case EMPLOYER => "EMPLOYER"
    case PRIVATE => "PRIVATE"
    case OTHER => "OTHER"
  }

  datatype RegisterRequest = RegisterRequest(source: Option<string>, providerName: Option<string>,
                                             productName: Option<string>, validFrom: Option<int>,
                                             validTo: Option<int>, notes: Option<string>)

  datatype ProfileRow = ProfileRow(id: int, userId: int, source: Source, providerName: Option<string>,
                                   productName: Option<string>, notes: Option<string>, active: bool,
                                   validFrom: Option<int>, validTo: Option<int>)

  datatype ProfileResponse = ProfileResponse(id: int, source: string, providerName: Option<string>,
                                             productName: Option<string>, notes: Option<string>, active: bool,
                                             validFrom: Option<int>, validTo: Option<int>)

  /**
   * parseSource: a missing value is "source is required"; otherwise the upper-cased value must be
   * the name of a source, else "Invalid source: " followed by the value as given.
   */
  function ParseSource(value: Option<string>): (r: Result<Source, string>)
    ensures value.None? ==> r == Err("source is required")
    ensures value.Some? ==> (r.Ok? <==> exists s :: ToUpper(value.value) == SourceName(s))
    ensures r.Ok? ==> value.Some? && ToUpper(value.value) == SourceName(r.value)
    ensures value.Some? && r.Err? ==> r.error == "Invalid source: " + value.value
  {
    if value.None? then Err("source is required")
    else
      var upper := ToUpper(value.value);
      if upper == "EMPLOYER" then assert SourceName(EMPLOYER) == upper; Ok(EMPLOYER)
      else if upper == "PRIVATE" then assert SourceName(PRIVATE) == upper; Ok(PRIVATE)
      else if upper == "OTHER" then assert SourceName(OTHER) == upper; Ok(OTHER)
      else
        assert forall s :: SourceName(s) != upper;
        Err("Invalid source: " + value.value)
  }

  /** Every source name parses back to its source, and so does its lower-case spelling. */
  lemma ParseSourceName(s: Source)
    ensures ParseSource(Some(SourceName(s))) == Ok(s)
    ensures ParseSource(Some(ToLower(SourceName(s)))) == Ok(s)
  {
    match s
    case EMPLOYER =>
      assert ToUpper("EMPLOYER") == "EMPLOYER";
      assert ToUpper(ToLower("EMPLOYER")) == "EMPLOYER";
    case PRIVATE =>
      assert ToUpper("PRIVATE") == "PRIVATE";
      assert ToUpper(ToLower("PRIVATE")) == "PRIVATE";
    case OTHER =>
      assert ToUpper("OTHER") == "OTHER";
      assert ToUpper(ToLower("OTHER")) == "OTHER";
  }

  /** toDto: every field, with the source rendered as its name. */
  function ToDto(p: ProfileRow): (d: ProfileResponse)
    ensures d.id == p.id && d.source == SourceName(p.source) && d.active == p.active
    ensures d.providerName == p.providerName && d.productName == p.productName && d.notes == p.notes
    ensures d.validFrom == p.validFrom && d.validTo == p.validTo
  {
    ProfileResponse(p.id, SourceName(p.source), p.providerName, p.productName, p.notes, p.active, p.validFrom, p.validTo)
  }

  /** Rows in increasing id order, every id below the next to hand out. */
  predicate Ascending(rows: seq<ProfileRow>, nextId: int) {
    && (forall i, j :: 0 <= i < j < |rows| ==> rows[i].id < rows[j].id)
    && (forall i :: 0 <= i < |rows| ==> rows[i].id < nextId)
  }

  /** The user's rows from newest to oldest. */
  function NewestFirst(rows: seq<ProfileRow>, userId: int): (r: seq<ProfileRow>)
    ensures forall x :: x in r <==> x in rows && x.userId == userId
    ensures |r| <= |rows|
  {
    if rows == [] then []
    else NewestFirst(rows[1..], userId) + (if rows[0].userId == userId then [rows[0]] else [])
  }

  /** Ids strictly decreasing. */
  predicate Descending(r: seq<ProfileRow>) {
    forall i, j :: 0 <= i < j < |r| ==> r[i].id > r[j].id
  }

  /** With ids ascending in the store, the user's rows come out by id descending. */
  lemma {:induction false} NewestFirstDescending(rows: seq<ProfileRow>, nextId: int, userId: int)
    requires Ascending(rows, nextId)
    ensures Descending(NewestFirst(rows, userId))
  {
    if rows != [] {
      assert Ascending(rows[1..], nextId) by {
        forall i, j | 0 <= i < j < |rows[1..]| ensures rows[1..][i].id < rows[1..][j].id {
          assert rows[1..][i] == rows[i + 1] && rows[1..][j] == rows[j + 1];
        }
      }
      NewestFirstDescending(rows[1..], nextId, userId);
      var tail := NewestFirst(rows[1..], userId);
      var r := NewestFirst(rows, userId);
      assert r == tail + (if rows[0].userId == userId then [rows[0]] else []);
      forall i, j | 0 <= i < j < |r| ensures r[i].id > r[j].id {
        if j >= |tail| {
          assert r[j] == rows[0] && r[i] == tail[i];
          assert tail[i] in rows[1..];
          var k :| 0 <= k < |rows[1..]| && rows[1..][k] == tail[i];
          assert rows[k + 1] == tail[i];
          assert rows[0].id < rows[k + 1].id;
        } else {
          assert r[i] == tail[i] && r[j] == tail[j];
          assert tail[i].id > tail[j].id;
        }
      }
    }
  }

  class ProfileRepository {
    var rows: seq<ProfileRow>
    var nextId: int

    predicate Valid()
      reads this
    {
      Ascending(rows, nextId)
    }

    constructor ()
      ensures Valid() && rows == [] && nextId == 1
    {
      rows := [];
      nextId := 1;
    }

    /** save of a new profile: it gets the next identity value. */
    method Insert(p: ProfileRow) returns (saved: ProfileRow)
      requires Valid()
      modifies this
      ensures Valid()
      ensures saved == p.(id := old(nextId))
      ensures rows == old(rows) + [saved] && nextId == old(nextId) + 1
    {
      saved := p.(id := nextId);
      rows := rows + [saved];
      nextId := nextId + 1;
    }

    /** findByUserIdOrderByIdDesc. */
    function FindByUserIdOrderByIdDesc(userId: int): (r: seq<ProfileRow>)
      requires Valid()
      reads this
      ensures forall x :: x in r <==> x in rows && x.userId == userId
      ensures forall i, j :: 0 <= i < j < |r| ==> r[i].id > r[j].id
    {
      NewestFirstDescending(rows, nextId, userId);
      NewestFirst(rows, userId)
    }
  }

  /** The profile the constructor builds: the request's fields and active = true. */
  function NewProfile(userId: int, source: Source, req: RegisterRequest): ProfileRow {
    ProfileRow(0, userId, source, req.providerName, req.productName, req.notes, true, req.validFrom, req.validTo)
  }

  /** register: an unparseable source throws before anything is saved; otherwise exactly one profile is saved. */
  method Register(repository: ProfileRepository, userId: int, req: RegisterRequest) returns (r: Result<ProfileRow, string>)
    requires repository.Valid()
    modifies repository
    ensures repository.Valid()
    ensures r.Err? <==> ParseSource(req.source).Err?
    ensures r.Err? ==> r.error == ParseSource(req.source).error
                       && repository.rows == old(repository.rows) && repository.nextId == old(repository.nextId)
    ensures r.Ok? ==>
      r.value == NewProfile(userId, ParseSource(req.source).value, req).(id := old(repository.nextId))
      && repository.rows == old(repository.rows) + [r.value]
  {
    var source := ParseSource(req.source);
    if source.Err? {
      return Err(source.error);
    }
    var saved := repository.Insert(NewProfile(userId, source.value, req));
    r := Ok(saved);
  }

  /** getForUser: the user's profiles as responses, newest first. */
  function GetForUser(repository: ProfileRepository, userId: int): (r: seq<ProfileResponse>)
    requires repository.Valid()
    reads repository
    ensures |r| == |repository.FindByUserIdOrderByIdDesc(userId)|
    ensures forall i :: 0 <= i < |r| ==> r[i] == ToDto(repository.FindByUserIdOrderByIdDesc(userId)[i])
  {
    MapDto(repository.FindByUserIdOrderByIdDesc(userId))
  }

  /** stream().map(this::toDto).toList(). */
  function MapDto(rows: seq<ProfileRow>): (r: seq<ProfileResponse>)
    ensures |r| == |rows|
    ensures forall i :: 0 <= i < |r| ==> r[i] == ToDto(rows[i])
  {
    if rows == [] then [] else [ToDto(rows[0])] + MapDto(rows[1..])
  }

  /** After a registration the new profile heads the user's list, active, and the user's older profiles follow. */
  lemma RegisterThenList(rows: seq<ProfileRow>, saved: ProfileRow)
    ensures NewestFirst(rows + [saved], saved.userId) == [saved] + NewestFirst(rows, saved.userId)
  {
    assert (rows + [saved])[..|rows|] == rows;
    NewestFirstSnoc(rows, saved, saved.userId);
  }

  /** A registration leaves every other user's list as it was. */
  lemma RegisterKeepsOthers(rows: seq<ProfileRow>, saved: ProfileRow, other: int)
    requires other != saved.userId
    ensures NewestFirst(rows + [saved], other) == NewestFirst(rows, other)
  {
    NewestFirstSnoc(rows, saved, other);
  }

  /** Appending a row puts it first in its user's list and nowhere else. */
  lemma {:induction false} NewestFirstSnoc(rows: seq<ProfileRow>, x: ProfileRow, userId: int)
    ensures NewestFirst(rows + [x], userId) == (if x.userId == userId then [x] else []) + NewestFirst(rows, userId)
  {
    if rows == [] {
      assert NewestFirst([x], userId) == NewestFirst([], userId) + (if x.userId == userId then [x] else []);
    } else {
      assert (rows + [x])[1..] == rows[1..] + [x];
      NewestFirstSnoc(rows[1..], x, userId);
    }
  }
}
