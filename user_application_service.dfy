/**
 * The user application service: saving an entity with the service clock's timestamps, the
 * lookups by email and id, and the update of a user's own name and identity number. The service
 * clock reading is `now`; the entity's persistence hooks read their own clock, `hookNow`, and run
 * inside the repository's save after the service stamped the entity.
 */
module UserApplicationService {
  import opened Wrappers
  import opened Text
  import Users
  import UserUpdateRequest

  datatype UserResponseDto = UserResponseDto(id: Option<int>, email: Option<string>, firstName: Option<string>,
                                             lastName: Option<string>, ssn: Option<string>)

  /** mapToDto: id, email, names and identity number; password, phone, role and timestamps are not exposed. */
  function MapToDto(row: Users.UserRow): (d: UserResponseDto)
    ensures d.id == row.id && d.email == row.email && d.ssn == row.ssn
    ensures d.firstName == row.firstName && d.lastName == row.lastName
  {
    UserResponseDto(row.id, row.email, row.firstName, row.lastName, row.ssn)
  }

  /** The message of ResourceNotFoundException(resourceName, identifier). */
  function NotFoundMessage(resourceName: string, id: int): string {
    resourceName + " not found: " + IntToString(id)
  }

  /** The entity after the service's stamps: createdAt only when it was null, updatedAt always. */
  function Stamped(row: Users.UserRow, now: int): Users.UserRow {
    row.(createdAt := if row.createdAt.None? then Some(now) else row.createdAt, updatedAt := Some(now))
  }

  /**
   * save(user): stamp, then hand the entity to the repository. A new entity's hook overwrites both
   * stamps with its own clock reading; for a stored entity the service's createdAt survives in the
   * returned entity while the table keeps the createdAt it holds, and updatedAt is the service's
   * reading unless the update hook runs.
   */
  method Save(repository: Users.UserRepository, user: Users.UserEntity, now: int, hookNow: int)
    returns (r: Result<Users.UserRow, Users.StoreError>)
    requires repository.Valid()
    modifies repository, user
    ensures repository.Valid()
    ensures r.Ok? <==> old(Users.Insertable(repository.rows, user.id, user.Row()))
    ensures r.Err? ==> repository.rows == old(repository.rows) && user.Row() == Stamped(old(user.Row()), now)
    ensures r.Ok? ==> user.Row() == r.value
    ensures r.Ok? && old(user.id).None? ==>
      r.value == old(user.Row()).(id := Some(old(repository.nextId)), createdAt := Some(hookNow), updatedAt := Some(hookNow),
                                  role := Users.PersistRole(old(user.role)))
      && repository.rows == old(repository.rows)[old(repository.nextId) := r.value]
    ensures r.Ok? && old(user.id).Some? ==>
      var k := old(user.id).value;
      var stamped := Stamped(old(user.Row()), now);
      var clean := k in old(repository.rows) && old(repository.rows)[k] == Users.UpdateWrite(old(repository.rows), k, stamped);
      r.value == (if clean then stamped else stamped.(updatedAt := Some(hookNow)))
      && repository.rows == old(repository.rows)[k := Users.UpdateWrite(old(repository.rows), k, r.value)]
    ensures r.Ok? && old(user.id).Some? && old(user.createdAt).Some? ==> r.value.createdAt == old(user.createdAt)
    ensures r.Ok? && old(user.id).Some? && old(user.id).value in old(repository.rows) ==>
      repository.rows[old(user.id).value].createdAt == old(repository.rows)[old(user.id).value].createdAt
  {
    Users.InsertableIgnoresTimestamps(repository.rows, user.id, user.Row(), Stamped(user.Row(), now).createdAt, Some(now));
    if user.createdAt.None? {
      user.SetCreatedAt(Some(now));
    }
    user.SetUpdatedAt(Some(now));
    r := repository.Save(user, hookNow);
  }

  /** findByEmail: the user with that exact email, or null. */
  method FindByEmail(repository: Users.UserRepository, email: string) returns (r: Option<Users.UserRow>)
    requires repository.Valid()
    ensures r.None? <==> !repository.ExistsByEmail(email)
    ensures r.Some? ==> r.value.email == Some(email) && r.value.id.Some? && r.value.id.value in repository.rows
                        && repository.rows[r.value.id.value] == r.value
  {
    r := repository.FindByEmail(email);
  }

  /** existsByEmail: some user that findById can return has exactly that email. */
  function ExistsByEmail(rows: map<int, Users.UserRow>, email: string): (r: bool)
    ensures r <==> exists k :: FindById(rows, k).Some? && FindById(rows, k).value.email == Some(email)
  {
    assert forall k :: k in rows ==> FindById(rows, k) == Some(MapToDto(rows[k]));
    exists k :: k in rows && rows[k].email == Some(email)
  }

  /** findById: empty iff no user has the id, otherwise the user's DTO. */
  function FindById(rows: map<int, Users.UserRow>, id: int): (r: Option<UserResponseDto>)
    ensures r.Some? <==> id in rows
    ensures r.Some? ==> r.value == MapToDto(rows[id])
  {
    if id in rows then Some(MapToDto(rows[id])) else None
  }

  /**
   * The stored row after updateUserInfo: names and identity number from the request (null
   * included) and updatedAt from the service clock, then from the update hook when the row changed.
   */
  function InfoUpdated(row: Users.UserRow, request: UserUpdateRequest.Request, now: int, hookNow: int): (r: Users.UserRow)
    ensures r.firstName == request.firstName && r.lastName == request.lastName && r.ssn == request.ssn
    ensures r.(firstName := row.firstName, lastName := row.lastName, ssn := row.ssn, updatedAt := row.updatedAt) == row
    ensures r.updatedAt == Some(now) || r.updatedAt == Some(hookNow)
  {
    var updated := row.(firstName := request.firstName, lastName := request.lastName, ssn := request.ssn,
                        updatedAt := Some(now));
    if updated == row then row else updated.(updatedAt := Some(hookNow))
  }

  /** ResourceNotFoundException with its message, or the exception of a refused write. */
  datatype UpdateError = NotFound(message: string) | SaveFailed(error: Users.StoreError)

  /** The request's values fit their columns: names of at most 100 characters and an identity number of at most 20. */
  predicate FitsColumns(request: UserUpdateRequest.Request) {
    Users.Fits(request.firstName, Users.NameLength) && Users.Fits(request.lastName, Users.NameLength)
    && Users.Fits(request.ssn, Users.SsnLength)
  }

  /** A request that passes its validation always fits the columns. */
  lemma ValidRequestFits(request: UserUpdateRequest.Request)
    requires UserUpdateRequest.Violations(request) == {}
    ensures FitsColumns(request)
  {
    assert "firstName.tooLong" !in UserUpdateRequest.Violations(request);
    assert "lastName.tooLong" !in UserUpdateRequest.Violations(request);
    assert "ssn.required" !in UserUpdateRequest.Violations(request);
    assert "ssn.invalid" !in UserUpdateRequest.Violations(request);
  }

  /**
   * updateUserInfo: a missing id is ResourceNotFoundException and saves nothing; a value longer
   * than its column makes the write fail and saves nothing; otherwise the row is updated and returned.
   */
  method UpdateUserInfo(repository: Users.UserRepository, id: int, request: UserUpdateRequest.Request, now: int, hookNow: int)
    returns (r: Result<UserResponseDto, UpdateError>)
    requires repository.Valid()
    modifies repository
    ensures repository.Valid()
    ensures r.Err? <==> id !in old(repository.rows) || !FitsColumns(request)
    ensures id !in old(repository.rows) ==> r == Err(NotFound(NotFoundMessage("User", id)))
    ensures id in old(repository.rows) && !FitsColumns(request) ==> r == Err(SaveFailed(Users.ConstraintViolation))
    ensures r.Err? ==> repository.rows == old(repository.rows)
    ensures r.Ok? ==>
      repository.rows == old(repository.rows)[id := InfoUpdated(old(repository.rows)[id], request, now, hookNow)]
      && r.value == MapToDto(repository.rows[id])
  {
    var found := repository.FindById(id);
    if found.None? {
      return Err(NotFound(NotFoundMessage("User", id)));
    }
    var user := new Users.UserEntity.Load(found.value);
    user.SetFirstName(request.firstName);
    user.SetLastName(request.lastName);
    user.SetSsn(request.ssn);
    user.SetUpdatedAt(Some(now));
    var saved := repository.Save(user, hookNow);
    if saved.Err? {
      assert saved.error.ConstraintViolation?;
      return Err(SaveFailed(saved.error));
    }
    r := Ok(MapToDto(saved.value));
  }

  /** Updating the profile keeps email, password, phone, role and createdAt, so the user's login and authority. */
  lemma UpdateKeepsAccount(row: Users.UserRow, request: UserUpdateRequest.Request, now: int, hookNow: int)
    ensures var r := InfoUpdated(row, request, now, hookNow);
      r.id == row.id && r.email == row.email && r.password == row.password && r.phone == row.phone
      && r.role == row.role && r.createdAt == row.createdAt
  {
    var r := InfoUpdated(row, request, now, hookNow);
    assert r.(firstName := row.firstName, lastName := row.lastName, ssn := row.ssn, updatedAt := row.updatedAt) == row;
  }
}
