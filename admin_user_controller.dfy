/** The administrator endpoints for users: list, show, promote to ADMIN and demote to USER. */
module AdminUserController {
  import opened Wrappers
  import opened Text
  import Users
  import UserPrincipal

  /** Every endpoint of the controller sits behind hasRole('ADMIN'). */
  const RequiredRole: string := "ADMIN"

  datatype AdminUserDto = AdminUserDto(id: Option<int>, email: Option<string>, firstName: Option<string>,
                                       lastName: Option<string>, role: Option<string>)

  /** AdminUserDto.from: id, email, names and role of the entity. */
  function FromRow(user: Users.UserRow): (d: AdminUserDto)
    ensures d.id == user.id && d.email == user.email && d.role == user.role
    ensures d.firstName == user.firstName && d.lastName == user.lastName
  {
    AdminUserDto(user.id, user.email, user.firstName, user.lastName, user.role)
  }

  /** The IllegalArgumentException for an unknown id. */
  function NotFoundMessage(id: int): string {
    "User not found: " + IntToString(id)
  }

  /** getUsers: one DTO per stored user, in the store's order, which is not modelled: any order is allowed. */
  method GetUsers(repository: Users.UserRepository) returns (r: seq<AdminUserDto>)
    requires repository.Valid()
    ensures |r| == |repository.rows|
    ensures forall k :: k in repository.rows ==> FromRow(repository.rows[k]) in r
    ensures forall i :: 0 <= i < |r| ==> exists k :: k in repository.rows && r[i] == FromRow(repository.rows[k])
    ensures forall i, j :: 0 <= i < j < |r| ==> r[i].id != r[j].id
  {
    r := ListRows(repository.rows);
  }

  /** The listing loop over rows stored under their own ids. */
  method ListRows(rows: map<int, Users.UserRow>) returns (r: seq<AdminUserDto>)
    requires forall k :: k in rows ==> rows[k].id == Some(k)
    ensures |r| == |rows|
    ensures forall k :: k in rows ==> FromRow(rows[k]) in r
    ensures forall i :: 0 <= i < |r| ==> exists k :: k in rows && r[i] == FromRow(rows[k])
    ensures forall i, j :: 0 <= i < j < |r| ==> r[i].id != r[j].id
  {
    var remaining := rows.Keys;
    ghost var done: set<int> := {};
    r := [];
    while remaining != {}
      invariant done <= rows.Keys && remaining == rows.Keys - done
      invariant Listing(rows, done, r)
      decreases remaining
    {
      var k := Pick(remaining);
      ListingStep(rows, done, r, k);
      r := r + [FromRow(rows[k])];
      remaining := remaining - {k};
      done := done + {k};
    }
    assert done == rows.Keys;
    assert |rows| == |rows.Keys|;
    forall i | 0 <= i < |r| ensures exists k :: k in rows && r[i] == FromRow(rows[k]) {
      var k := r[i].id.value;
      assert k in rows && r[i] == FromRow(rows[k]);
    }
  }

  /** Some element of a non-empty set. */
  method Pick<T>(s: set<T>) returns (x: T)
    requires s != {}
    ensures x in s
  {
    x :| x in s;
  }

  /** r lists the DTOs of exactly the rows under the ids in done, each once. */
  ghost predicate Listing(rows: map<int, Users.UserRow>, done: set<int>, r: seq<AdminUserDto>) {
    && |r| == |done|
    && (forall k :: k in done ==> k in rows && FromRow(rows[k]) in r)
    && (forall i :: 0 <= i < |r| ==> r[i].id.Some? && r[i].id.value in done && r[i].id.value in rows
                                     && r[i] == FromRow(rows[r[i].id.value]))
    && (forall i, j :: 0 <= i < j < |r| ==> r[i].id != r[j].id)
  }

  /** Listing one more stored row keeps the listing exact. */
  lemma ListingStep(rows: map<int, Users.UserRow>, done: set<int>, r: seq<AdminUserDto>, k: int)
    requires forall j :: j in rows ==> rows[j].id == Some(j)
    requires Listing(rows, done, r) && k in rows && k !in done
    ensures Listing(rows, done + {k}, r + [FromRow(rows[k])])
  {
    var r' := r + [FromRow(rows[k])];
    assert |done + {k}| == |done| + 1;
    assert forall i :: 0 <= i < |r| ==> r'[i] == r[i];
    assert r'[|r|].id == Some(k);
  }

  /** getUser: the DTO of the stored user, or the not-found error. */
  function GetUser(rows: map<int, Users.UserRow>, id: int): (r: Result<AdminUserDto, string>)
    ensures r.Ok? <==> id in rows
    ensures r.Ok? ==> r.value == FromRow(rows[id])
    ensures r.Err? ==> r.error == NotFoundMessage(id)
  {
    if id in rows then Ok(FromRow(rows[id])) else Err(NotFoundMessage(id))
  }

  /**
   * The stored row after setRole(role) and save: the role is replaced by its normalised form and,
   * when that changed the row, the PreUpdate hook stamps updatedAt with its clock reading.
   */
  function WithRole(row: Users.UserRow, role: string, now: int): (r: Users.UserRow)
    ensures r.role == Some(Users.NormalizeRole(Some(role)))
    ensures r.(role := row.role, updatedAt := row.updatedAt) == row
    ensures row.role == Some(Users.NormalizeRole(Some(role))) ==> r == row
  {
    var updated := row.(role := Some(Users.NormalizeRole(Some(role))));
    if updated == row then row else updated.(updatedAt := Some(now))
  }

  /** The IllegalArgumentException of an unknown id, or the exception of a refused write. */
  datatype Failure = NotFound(message: string) | SaveFailed(error: Users.StoreError)

  /**
   * Look the user up, set the role and save; an unknown id changes nothing, and so does a role
   * longer than its column.
   */
  method ChangeRole(repository: Users.UserRepository, id: int, role: string, now: int) returns (r: Result<(), Failure>)
    requires repository.Valid()
    modifies repository
    ensures repository.Valid()
    ensures r.Err? <==> id !in old(repository.rows) || |role| > Users.RoleLength
    ensures id !in old(repository.rows) ==> r == Err(NotFound(NotFoundMessage(id)))
    ensures id in old(repository.rows) && |role| > Users.RoleLength ==> r == Err(SaveFailed(Users.ConstraintViolation))
    ensures r.Err? ==> repository.rows == old(repository.rows)
    ensures r.Ok? ==> repository.rows == old(repository.rows)[id := WithRole(old(repository.rows)[id], role, now)]
  {
    var found := repository.FindById(id);
    if found.None? {
      return Err(NotFound(NotFoundMessage(id)));
    }
    var user := new Users.UserEntity.Load(found.value);
    user.SetRole(Some(role));
    var saved := repository.Save(user, now);
    if saved.Err? {
      assert saved.error.ConstraintViolation?;
      return Err(SaveFailed(saved.error));
    }
    r := Ok(());
  }

  /** promoteToAdmin. */
  method PromoteToAdmin(repository: Users.UserRepository, id: int, now: int) returns (r: Result<(), Failure>)
    requires repository.Valid()
    modifies repository
    ensures repository.Valid()
    ensures r.Err? <==> id !in old(repository.rows)
    ensures r.Err? ==> r == Err(NotFound(NotFoundMessage(id))) && repository.rows == old(repository.rows)
    ensures r.Ok? ==> repository.rows == old(repository.rows)[id := WithRole(old(repository.rows)[id], "ADMIN", now)]
  {
    r := ChangeRole(repository, id, "ADMIN", now);
  }

  /** demoteToUser. */
  method DemoteToUser(repository: Users.UserRepository, id: int, now: int) returns (r: Result<(), Failure>)
    requires repository.Valid()
    modifies repository
    ensures repository.Valid()
    ensures r.Err? <==> id !in old(repository.rows)
    ensures r.Err? ==> r == Err(NotFound(NotFoundMessage(id))) && repository.rows == old(repository.rows)
    ensures r.Ok? ==> repository.rows == old(repository.rows)[id := WithRole(old(repository.rows)[id], "USER", now)]
  {
    r := ChangeRole(repository, id, "USER", now);
  }

  /** Promoting stores exactly "ADMIN" and demoting exactly "USER". */
  lemma StoredRoles(row: Users.UserRow, now: int)
    ensures WithRole(row, "ADMIN", now).role == Some("ADMIN")
    ensures WithRole(row, "USER", now).role == Some("USER")
  {
    assert ToUpper("ADMIN") == "ADMIN";
    assert ToUpper("USER") == "USER";
  }

  /** Promoting or demoting twice is the same as once, whatever the second clock reading. */
  lemma ChangeRoleIdempotent(row: Users.UserRow, role: string, now: int, later: int)
    ensures WithRole(WithRole(row, role, now), role, later) == WithRole(row, role, now)
  {
  }

  /** A promoted user's principal carries ROLE_ADMIN and a demoted one's ROLE_USER. */
  lemma RoleAuthorities(row: Users.UserRow, now: int)
    ensures UserPrincipal.FromEntity(WithRole(row, "ADMIN", now)).Authorities() == ["ROLE_ADMIN"]
    ensures UserPrincipal.FromEntity(WithRole(row, "USER", now)).Authorities() == ["ROLE_USER"]
  {
    StoredRoles(row, now);
    assert ToUpper("ADMIN") == "ADMIN" && ToUpper("USER") == "USER";
    assert !StartsWith("ADMIN", UserPrincipal.RolePrefix) by { assert "ADMIN"[0] != UserPrincipal.RolePrefix[0]; }
    assert !StartsWith("USER", UserPrincipal.RolePrefix) by { assert "USER"[0] != UserPrincipal.RolePrefix[0]; }
    assert UserPrincipal.Authority("ADMIN") == "ROLE_ADMIN";
    assert UserPrincipal.Authority("USER") == "ROLE_USER";
  }
}
