/**
 * The users table: the mutable UserEntity with its setters and persistence hooks, and a
 * repository holding the stored rows by id. The repository's insert, update and lookup stand in
 * for the Spring Data repository, whose source is not part of this model.
 */
module Users {
  import opened Wrappers
  import opened Text

  /** The column values of one UserEntity. Every reference field of the entity may be null. */
  datatype UserRow = UserRow(
    id: Option<int>,
    email: Option<string>,
    password: Option<string>,
    firstName: Option<string>,
    lastName: Option<string>,
    ssn: Option<string>,
    phone: Option<string>,
    role: Option<string>,
    createdAt: Option<int>,
    updatedAt: Option<int>)

  const DefaultRole: string := "USER"

  /** setRole's rule: null becomes "USER", any other value is stored upper-cased. */
  function NormalizeRole(role: Option<string>): string {
    match role
    case None => DefaultRole
    case Some(r) => ToUpper(r)
  }

  /** Storing a role that setRole produced and setting it again changes nothing. */
  lemma NormalizeRoleIdempotent(role: Option<string>)
    ensures NormalizeRole(Some(NormalizeRole(role))) == NormalizeRole(role)
  {
    match role
    case None =>
    case Some(r) => ToUpperIdempotent(r);
  }

  /** onCreate's role rule: a null or blank role becomes "USER", any other is kept as it is. */
  function PersistRole(role: Option<string>): (r: Option<string>)
    ensures r.Some? && !IsBlank(r.value)
    ensures role.Some? && !IsBlank(role.value) ==> r == role
  {
    assert !IsSpace(DefaultRole[0]);
    if role.None? || IsBlank(role.value) then Some(DefaultRole) else role
  }

  class UserEntity {
    var id: Option<int>
    var email: Option<string>
    var password: Option<string>
    var firstName: Option<string>
    var lastName: Option<string>
    var ssn: Option<string>
    var phone: Option<string>
    var role: Option<string>
    var createdAt: Option<int>
    var updatedAt: Option<int>

    function Row(): UserRow
      reads this
    {
      UserRow(id, email, password, firstName, lastName, ssn, phone, role, createdAt, updatedAt)
    }

    /** A new entity: every field null except role, which starts as "USER". */
    constructor ()
      ensures Row() == UserRow(None, None, None, None, None, None, None, Some(DefaultRole), None, None)
    {
      id, email, password, firstName, lastName := None, None, None, None, None;
      ssn, phone, role, createdAt, updatedAt := None, None, Some(DefaultRole), None, None;
    }

    constructor WithCredentials(email: Option<string>, password: Option<string>)
      ensures Row() == UserRow(None, email, password, None, None, None, None, Some(DefaultRole), None, None)
    {
      this.id, this.email, this.password, this.firstName, this.lastName := None, email, password, None, None;
      this.ssn, this.phone, this.role, this.createdAt, this.updatedAt := None, None, Some(DefaultRole), None, None;
    }

    /** The entity the persistence layer materialises from a stored row. */
    constructor Load(row: UserRow)
      ensures Row() == row
    {
      id, email, password, firstName, lastName := row.id, row.email, row.password, row.firstName, row.lastName;
      ssn, phone, role, createdAt, updatedAt := row.ssn, row.phone, row.role, row.createdAt, row.updatedAt;
    }

    /** The PrePersist hook, with the clock reading as a parameter. */
    method OnCreate(now: int)
      modifies this
      ensures Row() == old(Row()).(createdAt := Some(now), updatedAt := Some(now), role := PersistRole(old(role)))
    {
      createdAt := Some(now);
      updatedAt := Some(now);
      if role.None? || IsBlank(role.value) {
        role := Some(DefaultRole);
      }
    }

    /** The PreUpdate hook: only updatedAt changes. */
    method OnUpdate(now: int)
      modifies this
      ensures Row() == old(Row()).(updatedAt := Some(now))
    {
      updatedAt := Some(now);
    }

    method SetEmail(email: Option<string>)
      modifies this
      ensures Row() == old(Row()).(email := email)
    {
      this.email := email;
    }

    method SetPassword(password: Option<string>)
      modifies this
      ensures Row() == old(Row()).(password := password)
    {
      this.password := password;
    }

    method SetFirstName(firstName: Option<string>)
      modifies this
      ensures Row() == old(Row()).(firstName := firstName)
    {
      this.firstName := firstName;
    }

    method SetLastName(lastName: Option<string>)
      modifies this
      ensures Row() == old(Row()).(lastName := lastName)
    {
      this.lastName := lastName;
    }

    method SetSsn(ssn: Option<string>)
      modifies this
      ensures Row() == old(Row()).(ssn := ssn)
    {
      this.ssn := ssn;
    }

    method SetPhone(phone: Option<string>)
      modifies this
      ensures Row() == old(Row()).(phone := phone)
    {
      this.phone := phone;
    }

    method SetRole(role: Option<string>)
      modifies this
      ensures Row() == old(Row()).(role := Some(NormalizeRole(role)))
    {
      this.role := Some(NormalizeRole(role));
    }

    method SetCreatedAt(createdAt: Option<int>)
      modifies this
      ensures Row() == old(Row()).(createdAt := createdAt)
    {
      this.createdAt := createdAt;
    }

    method SetUpdatedAt(updatedAt: Option<int>)
      modifies this
      ensures Row() == old(Row()).(updatedAt := updatedAt)
    {
      this.updatedAt := updatedAt;
    }
  }

  datatype StoreError = ConstraintViolation

  /** The declared lengths of the table's string columns; the password column declares none. */
  const EmailLength: nat := 320
  const NameLength: nat := 100
  const SsnLength: nat := 20
  const PhoneLength: nat := 32
  const RoleLength: nat := 30

  /** A value fits a column of the given length when it is null or no longer than that. */
  predicate Fits(value: Option<string>, length: nat) {
    value.None? || |value.value| <= length
  }

  /** The not-null columns the hooks do not fill, and every declared length. */
  predicate FitsColumns(row: UserRow) {
    row.email.Some? && row.password.Some? && row.role.Some?
    && Fits(row.email, EmailLength) && Fits(row.firstName, NameLength) && Fits(row.lastName, NameLength)
    && Fits(row.ssn, SsnLength) && Fits(row.phone, PhoneLength) && Fits(row.role, RoleLength)
  }

  /** The row as the statement writes its constrained columns: a new entity's role has passed through onCreate. */
  function Written(key: Option<int>, row: UserRow): (r: UserRow)
    ensures r.(role := row.role) == row
    ensures key.None? ==> r.role == PersistRole(row.role)
    ensures key.Some? ==> r == row
  {
    if key.None? then row.(role := PersistRole(row.role)) else row
  }

  /** The columns declared not null, the declared lengths and the unique email index. */
  predicate Insertable(rows: map<int, UserRow>, key: Option<int>, row: UserRow) {
    FitsColumns(Written(key, row))
    && forall k :: k in rows && rows[k].email == row.email ==> Some(k) == key
  }

  /** The timestamps are no part of the constraints. */
  lemma InsertableIgnoresTimestamps(rows: map<int, UserRow>, key: Option<int>, row: UserRow, createdAt: Option<int>, updatedAt: Option<int>)
    ensures Insertable(rows, key, row.(createdAt := createdAt, updatedAt := updatedAt)) == Insertable(rows, key, row)
  {
  }

  /**
   * The row an update of a known id stores: createdAt is declared not updatable, so the stored
   * value stays whatever the entity holds. A row under an unknown id is written as it is.
   */
  function UpdateWrite(rows: map<int, UserRow>, k: int, row: UserRow): (r: UserRow)
    ensures r.(createdAt := row.createdAt) == row
    ensures k in rows ==> r.createdAt == rows[k].createdAt
    ensures k !in rows ==> r == row
  {
    if k in rows then row.(createdAt := rows[k].createdAt) else row
  }

  /** Rows are stored under their own id, ids are below the next identity value, the columns' constraints hold, emails are unique. */
  predicate ValidRows(rows: map<int, UserRow>, nextId: int) {
    (forall k :: k in rows ==> rows[k].id == Some(k) && k < nextId && FitsColumns(rows[k]))
    && (forall a, b :: a in rows && b in rows && rows[a].email.Some? && rows[a].email == rows[b].email ==> a == b)
  }

  class UserRepository {
    var rows: map<int, UserRow>
    var nextId: int

    predicate Valid()
      reads this
    {
      ValidRows(rows, nextId)
    }

    constructor ()
      ensures Valid() && rows == map[]
    {
      rows := map[];
      nextId := 1;
    }

    function FindById(id: int): (r: Option<UserRow>)
      reads this
      ensures r.Some? <==> id in rows
      ensures r.Some? ==> r.value == rows[id]
    {
      if id in rows then Some(rows[id]) else None
    }

    predicate ExistsByEmail(email: string)
      reads this
    {
      exists k :: k in rows && rows[k].email == Some(email)
    }

    /** The row whose email equals the argument exactly, if there is one. */
    method FindByEmail(email: string) returns (r: Option<UserRow>)
      requires Valid()
      ensures r.None? <==> !ExistsByEmail(email)
      ensures r.Some? ==> r.value.id.Some? && r.value.id.value in rows && rows[r.value.id.value] == r.value
      ensures r.Some? ==> r.value.email == Some(email)
    {
      if ExistsByEmail(email) {
        var k :| k in rows && rows[k].email == Some(email);
        r := Some(rows[k]);
      } else {
        r := None;
      }
    }

    /**
     * save(): a new entity (null id) is inserted under the next identity value after the
     * PrePersist hook ran; a known one is written back, after the PreUpdate hook when a column
     * other than the not-updatable createdAt differs from the stored row, and the stored createdAt
     * is kept. A null email, password or role, a value longer than its column, or an email held by
     * another row violates the table's constraints and stores nothing.
     */
    method Save(e: UserEntity, now: int) returns (r: Result<UserRow, StoreError>)
      requires Valid()
      modifies this, e
      ensures Valid()
      ensures old(!Insertable(rows, e.id, e.Row())) ==> r.Err? && rows == old(rows) && e.Row() == old(e.Row())
      ensures old(Insertable(rows, e.id, e.Row())) ==> r.Ok? && e.Row() == r.value
      ensures r.Ok? && old(e.id).None? ==>
        r.value == old(e.Row()).(id := Some(old(nextId)), createdAt := Some(now), updatedAt := Some(now), role := PersistRole(old(e.role)))
        && rows == old(rows)[old(nextId) := r.value]
      ensures r.Ok? && old(e.id).Some? ==>
        var k := old(e.id).value;
        var clean := k in old(rows) && old(rows)[k] == UpdateWrite(old(rows), k, old(e.Row()));
        r.value == (if clean then old(e.Row()) else old(e.Row()).(updatedAt := Some(now)))
        && rows == old(rows)[k := UpdateWrite(old(rows), k, r.value)]
      ensures r.Ok? && old(e.id).Some? && old(e.id).value in old(rows) ==>
        rows[old(e.id).value].createdAt == old(rows)[old(e.id).value].createdAt
    {
      if !Insertable(rows, e.id, e.Row()) {
        return Err(ConstraintViolation);
      }
      if e.id.None? {
        e.OnCreate(now);
        e.id := Some(nextId);
        rows := rows[nextId := e.Row()];
        nextId := nextId + 1;
      } else {
        var k := e.id.value;
        if !(k in rows && rows[k] == UpdateWrite(rows, k, e.Row())) {
          e.OnUpdate(now);
        }
        rows := rows[k := UpdateWrite(rows, k, e.Row())];
        if nextId <= k {
          nextId := k + 1;
        }
      }
      r := Ok(e.Row());
    }
  }
}
