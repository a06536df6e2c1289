/**
 * The insurance snapshot a user registers in the quick registration: where the coverage comes from,
 * which types it has and whether the user is unsure. The store keeps at most one snapshot per user:
 * saving deletes the user's old snapshot before it inserts the new one.
 */
module InsuranceSnapshots {
  import opened Wrappers

  datatype InsuranceType = TREATMENT | INCOME | DISABILITY | LIFE | PENSION | UNKNOWN
  datatype InsuranceSource = EMPLOYER | PRIVATE | UNKNOWN

  /** The request body; Jackson leaves a missing source or type set null. */
  datatype SnapshotRequest = SnapshotRequest(source: Option<InsuranceSource>, types: Option<set<InsuranceType>>,
                                             uncertain: bool)

  /**
   * A stored snapshot. The element collection of types is read back as a set, and a null set is read
   * back empty; createdAt is the clock reading when the entity was built.
   */
  datatype SnapshotRow = SnapshotRow(id: int, userId: int, source: InsuranceSource, types: set<InsuranceType>,
                                     uncertain: bool, createdAt: int)

  /** The rows of users other than userId, in their order. */
  function Without(rows: seq<SnapshotRow>, userId: int): (r: seq<SnapshotRow>)
    ensures forall x :: x in r <==> x in rows && x.userId != userId
    ensures |r| <= |rows|
  {
    if rows == [] then []
    else (if rows[0].userId == userId then [] else [rows[0]]) + Without(rows[1..], userId)
  }

  /** findByUserId: the first row of the user, or empty. */
  function FindByUser(rows: seq<SnapshotRow>, userId: int): (r: Option<SnapshotRow>)
    ensures r.None? <==> forall x :: x in rows ==> x.userId != userId
    ensures r.Some? ==> r.value in rows && r.value.userId == userId
  {
    if rows == [] then None
    else if rows[0].userId == userId then Some(rows[0])
    else FindByUser(rows[1..], userId)
  }

  /** Rows that share an id or a user are the same row, and every id is below the next one to hand out. */
  predicate WellFormed(rows: seq<SnapshotRow>, nextId: int) {
    && (forall x :: x in rows ==> x.id < nextId)
    && (forall x, y :: x in rows && y in rows && (x.id == y.id || x.userId == y.userId) ==> x == y)
  }

  class SnapshotRepository {
    var rows: seq<SnapshotRow>
    var nextId: int

    predicate Valid()
      reads this
    {
      WellFormed(rows, nextId)
    }

    constructor ()
      ensures Valid() && rows == [] && nextId == 1
    {
      rows := [];
      nextId := 1;
    }

    /** findByUserId. */
    function FindByUserId(userId: int): (r: Option<SnapshotRow>)
      reads this
      ensures r == FindByUser(rows, userId)
    {
      FindByUser(rows, userId)
    }

    /** deleteByUserId: every row of the user is removed, the others stay in order. */
    method DeleteByUserId(userId: int)
      requires Valid()
      modifies this
      ensures Valid()
      ensures rows == Without(old(rows), userId) && nextId == old(nextId)
    {
      rows := Without(rows, userId);
    }

    /** save of a new entity: the next identity value becomes its id and the row is appended. */
    method Insert(userId: int, source: InsuranceSource, types: set<InsuranceType>, uncertain: bool, now: int)
      returns (row: SnapshotRow)
      requires Valid() && forall x :: x in rows ==> x.userId != userId
      modifies this
      ensures Valid()
      ensures row == SnapshotRow(old(nextId), userId, source, types, uncertain, now)
      ensures rows == old(rows) + [row] && nextId == old(nextId) + 1
    {
      row := SnapshotRow(nextId, userId, source, types, uncertain, now);
      rows := rows + [row];
      nextId := nextId + 1;
    }
  }

  /** The service's insertion: deleting the user's old snapshot, then inserting the new one. */
  function Replaced(rows: seq<SnapshotRow>, row: SnapshotRow): seq<SnapshotRow> {
    Without(rows, row.userId) + [row]
  }

  /**
   * saveSnapshot: delete, then insert. A missing source breaks the not-null column, and the
   * transaction rolls the delete back, so nothing changes.
   */
  method SaveSnapshot(repository: SnapshotRepository, userId: int, request: SnapshotRequest, now: int)
    returns (r: Result<SnapshotRow, string>)
    requires repository.Valid()
    modifies repository
    ensures repository.Valid()
    ensures r.Err? <==> request.source.None?
    ensures r.Err? ==> repository.rows == old(repository.rows) && repository.nextId == old(repository.nextId)
    ensures r.Ok? ==>
      r.value == SnapshotRow(old(repository.nextId), userId, request.source.value, request.types.GetOr({}),
                             request.uncertain, now)
      && repository.rows == Replaced(old(repository.rows), r.value)
  {
    if request.source.None? {
      return Err("source must not be null");
    }
    repository.DeleteByUserId(userId);
    var row := repository.Insert(userId, request.source.value, request.types.GetOr({}), request.uncertain, now);
    r := Ok(row);
  }

  /** getSnapshot: the user's snapshot, or null. */
  function GetSnapshot(repository: SnapshotRepository, userId: int): (r: Option<SnapshotRow>)
    reads repository
    ensures r.None? <==> forall x :: x in repository.rows ==> x.userId != userId
    ensures r.Some? ==> r.value in repository.rows && r.value.userId == userId
  {
    repository.FindByUserId(userId)
  }

  /** After a save the user's snapshot is the saved row. */
  lemma {:induction false} SaveThenGet(rows: seq<SnapshotRow>, row: SnapshotRow)
    ensures FindByUser(Replaced(rows, row), row.userId) == Some(row)
  {
    var w := Without(rows, row.userId);
    NoneThenAppend(w, row);
  }

  /** The first match in rows + [row] is row when rows has no match. */
  lemma {:induction false} NoneThenAppend(rows: seq<SnapshotRow>, row: SnapshotRow)
    requires forall x :: x in rows ==> x.userId != row.userId
    ensures FindByUser(rows + [row], row.userId) == Some(row)
  {
    if rows != [] {
      assert (rows + [row])[1..] == rows[1..] + [row];
      NoneThenAppend(rows[1..], row);
    }
  }

  /** A save for one user leaves every other user's snapshot as it was. */
  lemma {:induction false} SaveKeepsOthers(rows: seq<SnapshotRow>, row: SnapshotRow, other: int)
    requires other != row.userId
    ensures FindByUser(Replaced(rows, row), other) == FindByUser(rows, other)
  {
    if rows == [] {
    } else {
      var tail := Without(rows[1..], row.userId);
      if rows[0].userId == row.userId {
        assert Replaced(rows, row) == Replaced(rows[1..], row);
        SaveKeepsOthers(rows[1..], row, other);
      } else {
        assert Replaced(rows, row) == [rows[0]] + Replaced(rows[1..], row);
        SaveKeepsOthers(rows[1..], row, other);
      }
    }
  }

  /** After one or more saves for a user, exactly one of the user's snapshots is stored. */
  lemma ReplacedHasOne(rows: seq<SnapshotRow>, row: SnapshotRow)
    ensures forall x :: x in Replaced(rows, row) && x.userId == row.userId ==> x == row
  {
  }

  /**
   * Saving the same request twice leaves one snapshot for the user, with the request's content; only
   * the id and the timestamp are those of the second save.
   */
  lemma SaveTwice(rows: seq<SnapshotRow>, first: SnapshotRow, second: SnapshotRow)
    requires first.userId == second.userId
    ensures var twice := Replaced(Replaced(rows, first), second);
      FindByUser(twice, first.userId) == Some(second)
      && (forall x :: x in twice && x.userId == first.userId ==> x == second)
      && (forall v :: v != first.userId ==> FindByUser(twice, v) == FindByUser(rows, v))
  {
    SaveThenGet(Replaced(rows, first), second);
    forall v | v != first.userId ensures FindByUser(Replaced(Replaced(rows, first), second), v) == FindByUser(rows, v) {
      SaveKeepsOthers(Replaced(rows, first), second, v);
      SaveKeepsOthers(rows, first, v);
    }
  }
}
