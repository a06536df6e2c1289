/**
 * Login and registration against the user table. The authentication manager (a password check
 * against the stored hash) and the password encoder are parameters; the clock reading is a
 * parameter too.
 */
module AuthService {
  import opened Wrappers
  import Jwt
  import JwtUtil
  import Users
  import Text

  datatype LoginRequest = LoginRequest(email: string, password: string)

  datatype LoginResponse = LoginResponse(
    token: Jwt.SignedJwt,
    tokenType: string,
    expiresInSeconds: int,
    userId: Option<int>,
    email: Option<string>,
    firstName: Option<string>,
    lastName: Option<string>)

  datatype RegisterRequest = RegisterRequest(email: string, password: string, firstName: Option<string>, lastName: Option<string>)

  datatype RegisterResponse = RegisterResponse(id: Option<int>, email: Option<string>, firstName: Option<string>, lastName: Option<string>)

  /**
   * BadCredentialsException, IllegalStateException("USER_NOT_FOUND"), UserAlreadyExistsException(email),
   * and the exception of a write the users table refuses.
   */
  datatype AuthError = BadCredentials | UserNotFound | UserAlreadyExists(email: string) | SaveFailed(error: Users.StoreError)

  /** The lifetime login reports: 24 hours in seconds. */
  const ExpiresInSeconds: int := 60 * 60 * 24

  /**
   * login: the authentication manager decides first; a rejected login issues nothing. The user is
   * then looked up by the request email and a token issued for its id and stored email.
   */
  method Login(repository: Users.UserRepository, key: Jwt.Key, nowMs: nat, request: LoginRequest,
               authenticate: (string, string) -> bool)
    returns (r: Result<LoginResponse, AuthError>)
    requires repository.Valid()
    ensures !authenticate(request.email, request.password) ==> r == Err(BadCredentials)
    ensures authenticate(request.email, request.password) && !repository.ExistsByEmail(request.email) ==> r == Err(UserNotFound)
    ensures authenticate(request.email, request.password) && repository.ExistsByEmail(request.email) ==> r.Ok?
    ensures r.Ok? ==> r.value.userId.Some?
    ensures r.Ok? ==>
      var id := r.value.userId.value;
      id in repository.rows && repository.rows[id].email == Some(request.email)
      && r.value.email == Some(request.email)
      && r.value.firstName == repository.rows[id].firstName && r.value.lastName == repository.rows[id].lastName
      && r.value.token == JwtUtil.GenerateToken(key, nowMs, id, request.email)
      && r.value.tokenType == "Bearer"
    ensures r.Ok? ==>
      r.value.expiresInSeconds * 1000 == JwtUtil.ExpirationMs
      && r.value.token.claims.expiration.value - r.value.token.claims.issuedAt.value == r.value.expiresInSeconds
  {
    if !authenticate(request.email, request.password) {
      return Err(BadCredentials);
    }
    var user := repository.FindByEmail(request.email);
    if user.None? {
      return Err(UserNotFound);
    }
    var row := user.value;
    var token := JwtUtil.GenerateToken(key, nowMs, row.id.value, row.email.value);
    JwtUtil.GeneratedClaims(key, nowMs, row.id.value, row.email.value);
    r := Ok(LoginResponse(token, "Bearer", ExpiresInSeconds, row.id, row.email, row.firstName, row.lastName));
  }

  /** The row register stores for a request, before the identity value and the PrePersist hook. */
  function NewUserRow(request: RegisterRequest, encode: string -> string): (row: Users.UserRow)
    ensures row.email == Some(request.email) && row.password == Some(encode(request.password))
    ensures row.firstName == request.firstName && row.lastName == request.lastName
    ensures row.id.None? && row.role == Some(Users.DefaultRole)
  {
    Users.UserRow(None, Some(request.email), Some(encode(request.password)), request.firstName, request.lastName,
      None, None, Some(Users.DefaultRole), None, None)
  }

  /**
   * The request fits the users table: an email of at most 320 characters and names of at most
   * 100. No other column the request fills declares a length.
   */
  predicate FitsColumns(request: RegisterRequest) {
    |request.email| <= Users.EmailLength
    && Users.Fits(request.firstName, Users.NameLength) && Users.Fits(request.lastName, Users.NameLength)
  }

  /** A new user's row fits the table exactly when the request does, whatever the password hash. */
  lemma NewUserRowFits(request: RegisterRequest, encode: string -> string)
    ensures Users.FitsColumns(Users.Written(None, NewUserRow(request, encode))) <==> FitsColumns(request)
  {
    assert !Text.IsBlank(Users.DefaultRole) by {
      assert !Text.IsSpace(Users.DefaultRole[0]);
    }
  }

  /**
   * register: an email already stored is refused and nothing is saved. Otherwise a new entity gets
   * the email, the encoder's hash of the password and the optional names and is saved; a value
   * longer than its column makes the insert fail and nothing is stored; else the response mirrors
   * the saved row.
   */
  method Register(repository: Users.UserRepository, request: RegisterRequest, encode: string -> string, now: int)
    returns (r: Result<RegisterResponse, AuthError>)
    requires repository.Valid()
    modifies repository
    ensures repository.Valid()
    ensures old(repository.ExistsByEmail(request.email)) ==>
      r == Err(UserAlreadyExists(request.email)) && repository.rows == old(repository.rows)
    ensures !old(repository.ExistsByEmail(request.email)) && !FitsColumns(request) ==>
      r == Err(SaveFailed(Users.ConstraintViolation)) && repository.rows == old(repository.rows)
    ensures !old(repository.ExistsByEmail(request.email)) && FitsColumns(request) ==>
      var saved := NewUserRow(request, encode).(id := Some(old(repository.nextId)), createdAt := Some(now), updatedAt := Some(now));
      r == Ok(RegisterResponse(saved.id, saved.email, saved.firstName, saved.lastName))
      && repository.rows == old(repository.rows)[old(repository.nextId) := saved]
  {
    if repository.ExistsByEmail(request.email) {
      return Err(UserAlreadyExists(request.email));
    }
    var user := new Users.UserEntity();
    user.SetEmail(Some(request.email));
    user.SetPassword(Some(encode(request.password)));
    user.SetFirstName(request.firstName);
    user.SetLastName(request.lastName);
    assert user.Row() == NewUserRow(request, encode);
    assert user.role == Some(Users.DefaultRole) && !Text.IsBlank(Users.DefaultRole) by {
      assert !Text.IsSpace(Users.DefaultRole[0]);
    }
    NewUserRowFits(request, encode);
    var saved := repository.Save(user, now);
    match saved
    case Ok(row) => r := Ok(RegisterResponse(row.id, row.email, row.firstName, row.lastName));
    case Err(e) =>
      assert e.ConstraintViolation?;
      r := Err(SaveFailed(e));
  }
}
