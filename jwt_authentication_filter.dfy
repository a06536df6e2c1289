/**
 * The per-request bearer-token filter: it reads the Authorization header, has the token decoded,
 * cross-checks the claimed user against the live user table and, when everything agrees and no
 * identity is present yet, installs one in the request's security context. The chain is always
 * continued exactly once.
 */
module JwtAuthenticationFilter {
  import opened Wrappers
  import opened Text
  import Jwt
  import Users
  import JwtUtil
  import JwtEncoder
  import UserPrincipal

  /** The authorization scheme of RFC 6750 section 2.1, with its separating space; matched case-sensitively. */
  const BearerPrefix: string := "Bearer "

  /** What the decoder throws: a JwtException, or an IllegalArgumentException for an unusable token string. */
  datatype DecodeError = JwtFailure(cause: Jwt.JwtError) | IllegalArgument

  /** The principal the filter installs: the id, the stored email and an authority list. */
  datatype JwtUserDetails = JwtUserDetails(userId: int, email: Option<string>, authorities: seq<string>)

  /** A UsernamePasswordAuthenticationToken: principal, credentials and granted authorities. */
  datatype Authentication = Authentication(principal: JwtUserDetails, credentials: Option<string>, authorities: seq<string>)

  /** The request's security context; only its authentication is modelled. */
  class SecurityContext {
    var authentication: Option<Authentication>

    constructor ()
      ensures authentication == None
    {
      authentication := None;
    }
  }

  /** The token handed to the decoder: the header without its first seven characters, when it is a bearer header. */
  function BearerToken(authorization: Option<string>): (r: Option<string>)
    ensures r.Some? <==> authorization.Some? && StartsWith(authorization.value, BearerPrefix)
    ensures r.Some? ==> authorization.value == BearerPrefix + r.value
  {
    if authorization.Some? && StartsWith(authorization.value, BearerPrefix) then
      assert authorization.value == authorization.value[..7] + authorization.value[7..];
      Some(authorization.value[7..])
    else None
  }

  /** equalsIgnoreCase against a possibly null stored email: null never matches. */
  predicate EmailMatches(subject: string, stored: Option<string>) {
    stored.Some? && EqualsIgnoreCase(subject, stored.value)
  }

  /** The identity installed for a verified user: the claimed id, the stored email and no authorities. */
  function Installed(userId: int, user: Users.UserRow): (a: Authentication)
    ensures a.principal.userId == userId && a.principal.email == user.email
    ensures a.authorities == [] && a.principal.authorities == [] && a.credentials.None?
  {
    var details := JwtUserDetails(userId, user.email, []);
    Authentication(details, None, details.authorities)
  }

  /** The conditions under which the filter installs an identity, met by the claims of a decoded token. */
  predicate Accepts(claims: Jwt.Claims, users: map<int, Users.UserRow>) {
    var userId := Jwt.GetLong(claims, "userId");
    userId.Ok? && userId.value.Some? && claims.subject.Some?
    && userId.value.value in users
    && EmailMatches(claims.subject.value, users[userId.value.value].email)
  }

  /** The authentication in the context after the filter ran, given the one before. */
  function Outcome(existing: Option<Authentication>, authorization: Option<string>,
                   decode: string -> Result<Jwt.Claims, DecodeError>, users: map<int, Users.UserRow>): (r: Option<Authentication>)
    ensures r == existing || (existing.None? && r.Some? && r.value.authorities == [] && r.value.principal.authorities == [])
    ensures r != existing ==> BearerToken(authorization).Some? && decode(BearerToken(authorization).value).Ok?
    ensures r != existing ==> r.value.principal.userId in users && r.value.principal.email == users[r.value.principal.userId].email
  {
    match BearerToken(authorization)
    case None => existing
    case Some(token) =>
      match decode(token)
      case Err(_) => existing
      case Ok(claims) =>
        if existing.None? && Accepts(claims, users) then
          var id := Jwt.GetLong(claims, "userId").value.value;
          Some(Installed(id, users[id]))
        else existing
  }

  /**
   * doFilterInternal. The result counts the calls to the rest of the chain and records what was
   * handed to the decoder; the claims are read inside the try block, so a userId of the wrong type
   * is swallowed like a decoding failure.
   */
  method DoFilterInternal(context: SecurityContext, authorization: Option<string>,
                          decode: string -> Result<Jwt.Claims, DecodeError>, repository: Users.UserRepository)
    returns (chainCalls: nat, decoderInput: Option<string>)
    modifies context
    ensures context.authentication == Outcome(old(context.authentication), authorization, decode, repository.rows)
    ensures chainCalls == 1
    ensures decoderInput == BearerToken(authorization)
  {
    chainCalls := 0;
    decoderInput := None;
    if authorization.Some? && StartsWith(authorization.value, BearerPrefix) {
      var token := authorization.value[7..];
      decoderInput := Some(token);
      var decoded := decode(token);
      if decoded.Ok? {
        var claims := decoded.value;
        var userId := Jwt.GetLong(claims, "userId");
        if userId.Ok? {
          var email := claims.subject;
          if email.Some? && userId.value.Some? && context.authentication.None? {
            var userOpt := repository.FindById(userId.value.value);
            if userOpt.None? || !EmailMatches(email.value, userOpt.value.email) {
              chainCalls := chainCalls + 1;
              return;
            }
            var userDetails := JwtUserDetails(userId.value.value, userOpt.value.email, []);
            context.authentication := Some(Authentication(userDetails, None, userDetails.authorities));
          }
        }
      }
    }
    chainCalls := chainCalls + 1;
  }

  /** No header, or one without the exact "Bearer " prefix, leaves the context as it was. */
  lemma NoBearerUnchanged(existing: Option<Authentication>, authorization: Option<string>,
                          decode: string -> Result<Jwt.Claims, DecodeError>, users: map<int, Users.UserRow>)
    requires authorization.None? || !StartsWith(authorization.value, BearerPrefix)
    ensures Outcome(existing, authorization, decode, users) == existing
  {
  }

  /** A decoder exception is swallowed: nothing is installed. */
  lemma DecodeFailureUnchanged(existing: Option<Authentication>, authorization: Option<string>,
                               decode: string -> Result<Jwt.Claims, DecodeError>, users: map<int, Users.UserRow>)
    requires BearerToken(authorization).Some? && decode(BearerToken(authorization).value).Err?
    ensures Outcome(existing, authorization, decode, users) == existing
  {
  }

  /** An identity already present is never replaced. */
  lemma ExistingKept(existing: Authentication, authorization: Option<string>,
                     decode: string -> Result<Jwt.Claims, DecodeError>, users: map<int, Users.UserRow>)
    ensures Outcome(Some(existing), authorization, decode, users) == Some(existing)
  {
  }

  /**
   * Exactly when the filter installs an identity: a bearer token decodes, carries a numeric userId
   * and a subject, the user still exists and its stored email equals the subject ignoring case,
   * and no identity was present; the identity is then the stored user's, with no authorities.
   */
  lemma InstalledIff(existing: Option<Authentication>, authorization: Option<string>,
                     decode: string -> Result<Jwt.Claims, DecodeError>, users: map<int, Users.UserRow>)
    ensures var r := Outcome(existing, authorization, decode, users);
      r != existing <==>
        existing.None? && BearerToken(authorization).Some? && decode(BearerToken(authorization).value).Ok?
        && Accepts(decode(BearerToken(authorization).value).value, users)
    ensures var r := Outcome(existing, authorization, decode, users);
      r != existing ==>
        var claims := decode(BearerToken(authorization).value).value;
        r == Some(Installed(Jwt.GetLong(claims, "userId").value.value, users[Jwt.GetLong(claims, "userId").value.value]))
  {
  }

  /** A token whose user is gone, or whose subject no longer matches the stored email, leaves the request anonymous. */
  lemma StaleTokenAnonymous(authorization: Option<string>, decode: string -> Result<Jwt.Claims, DecodeError>,
                            users: map<int, Users.UserRow>, id: int)
    requires BearerToken(authorization).Some? && decode(BearerToken(authorization).value).Ok?
    requires Jwt.GetLong(decode(BearerToken(authorization).value).value, "userId") == Ok(Some(id))
    requires id !in users || decode(BearerToken(authorization).value).value.subject.None?
      || !EmailMatches(decode(BearerToken(authorization).value).value.subject.value, users[id].email)
    ensures Outcome(None, authorization, decode, users) == None
  {
  }

  /** A decoder that reports the verifier's JwtExceptions as they are. */
  function AsDecoderResult(r: Result<Jwt.Claims, Jwt.JwtError>): Result<Jwt.Claims, DecodeError> {
    match r
    case Ok(claims) => Ok(claims)
    case Err(e) => Err(JwtFailure(e))
  }

  lemma EqualsIgnoreCaseReflexive(s: string)
    ensures EqualsIgnoreCase(s, s)
  {
  }

  /**
   * End to end: a token from JwtUtil.generateToken for a stored user, sent as "Bearer <token>"
   * before it expires to a decoder that verifies with the same key, installs that user.
   * serialize and decode stand for the compact form and its parsing.
   */
  lemma GeneratedTokenAuthenticates(key: Jwt.Key, issuedMs: nat, nowMs: int, id: int, email: string,
                                    users: map<int, Users.UserRow>, serialize: Jwt.SignedJwt -> string,
                                    decode: string -> Result<Jwt.Claims, DecodeError>)
    requires var t := JwtUtil.GenerateToken(key, issuedMs, id, email);
      decode(serialize(t)) == AsDecoderResult(JwtUtil.Decode(key, nowMs, t))
    requires id in users && users[id].email == Some(email)
    requires !JwtUtil.IsTokenExpired(JwtUtil.ExpiresAtMs(issuedMs), nowMs)
    ensures var t := JwtUtil.GenerateToken(key, issuedMs, id, email);
      Outcome(None, Some(BearerPrefix + serialize(t)), decode, users) == Some(Installed(id, users[id]))
  {
    var t := JwtUtil.GenerateToken(key, issuedMs, id, email);
    var header := BearerPrefix + serialize(t);
    assert header[..7] == BearerPrefix && header[7..] == serialize(t);
    JwtUtil.DecodeGenerated(key, key, issuedMs, nowMs, id, email);
    JwtUtil.GeneratedClaims(key, issuedMs, id, email);
    EqualsIgnoreCaseReflexive(email);
  }

  /** The same token decoded with any other key, or after its expiry, leaves the request anonymous. */
  lemma RejectedTokenAnonymous(key: Jwt.Key, verifier: Jwt.Key, issuedMs: nat, nowMs: int, id: int, email: string,
                               users: map<int, Users.UserRow>, serialize: Jwt.SignedJwt -> string,
                               decode: string -> Result<Jwt.Claims, DecodeError>)
    requires var t := JwtUtil.GenerateToken(key, issuedMs, id, email);
      decode(serialize(t)) == AsDecoderResult(JwtUtil.Decode(verifier, nowMs, t))
    requires verifier != key || JwtUtil.IsTokenExpired(JwtUtil.ExpiresAtMs(issuedMs), nowMs)
    ensures var t := JwtUtil.GenerateToken(key, issuedMs, id, email);
      Outcome(None, Some(BearerPrefix + serialize(t)), decode, users) == None
  {
    var t := JwtUtil.GenerateToken(key, issuedMs, id, email);
    var header := BearerPrefix + serialize(t);
    assert header[..7] == BearerPrefix && header[7..] == serialize(t);
    JwtUtil.DecodeGenerated(key, verifier, issuedMs, nowMs, id, email);
  }

  /**
   * A token issued by JwtEncoder carries its id under "uid", so even a valid one never
   * authenticates here: the userId the filter reads is null.
   */
  lemma EncoderTokenAnonymous(key: Jwt.Key, properties: JwtEncoder.JwtProperties, principal: UserPrincipal.Principal,
                              issuedMs: nat, jti: string, nowMs: int, existing: Option<Authentication>,
                              users: map<int, Users.UserRow>, serialize: Jwt.SignedJwt -> string,
                              decode: string -> Result<Jwt.Claims, DecodeError>)
    requires var t := JwtEncoder.Encode(key, properties, principal, issuedMs, jti);
      decode(serialize(t)) == AsDecoderResult(Jwt.Verify(key, nowMs, t))
    ensures var t := JwtEncoder.Encode(key, properties, principal, issuedMs, jti);
      Outcome(existing, Some(BearerPrefix + serialize(t)), decode, users) == existing
  {
    var t := JwtEncoder.Encode(key, properties, principal, issuedMs, jti);
    var header := BearerPrefix + serialize(t);
    assert header[..7] == BearerPrefix && header[7..] == serialize(t);
    JwtEncoder.EncodedClaims(key, properties, principal, issuedMs, jti);
  }

  /** The same token from the corrected encoder, which writes "userId", authenticates its principal's user until it expires. */
  lemma CorrectedEncoderTokenAuthenticates(key: Jwt.Key, properties: JwtEncoder.JwtProperties, user: Users.UserRow,
                                           issuedMs: nat, jti: string, nowMs: int,
                                           users: map<int, Users.UserRow>, serialize: Jwt.SignedJwt -> string,
                                           decode: string -> Result<Jwt.Claims, DecodeError>)
    requires var t := JwtEncoder.EncodeWithUserId(key, properties, UserPrincipal.FromEntity(user), issuedMs, jti);
      decode(serialize(t)) == AsDecoderResult(Jwt.Verify(key, nowMs, t)) && !Jwt.ExpiredAt(t.claims, nowMs)
    requires user.id.Some? && user.email.Some? && user.id.value in users && users[user.id.value] == user
    ensures var t := JwtEncoder.EncodeWithUserId(key, properties, UserPrincipal.FromEntity(user), issuedMs, jti);
      Outcome(None, Some(BearerPrefix + serialize(t)), decode, users) == Some(Installed(user.id.value, user))
  {
    var p := UserPrincipal.FromEntity(user);
    var t := JwtEncoder.EncodeWithUserId(key, properties, p, issuedMs, jti);
    var header := BearerPrefix + serialize(t);
    assert header[..7] == BearerPrefix && header[7..] == serialize(t);
    JwtEncoder.EncodedWithUserIdClaims(key, properties, p, issuedMs, jti);
    EqualsIgnoreCaseReflexive(user.email.value);
  }

  /**
   * The corrected filter: the same decisions, but the installed identity carries the user's
   * ROLE_ authority, as UserPrincipal computes it from the stored role.
   */
  function OutcomeWithRoles(existing: Option<Authentication>, authorization: Option<string>,
                            decode: string -> Result<Jwt.Claims, DecodeError>, users: map<int, Users.UserRow>): (r: Option<Authentication>)
    ensures r != existing ==>
      r.Some? && r.value.principal.userId in users
      && r.value.authorities == UserPrincipal.FromEntity(users[r.value.principal.userId]).Authorities()
  {
    match Outcome(existing, authorization, decode, users)
    case None => None
    case Some(a) =>
      if Some(a) == existing then existing
      else
        var authorities := UserPrincipal.FromEntity(users[a.principal.userId]).Authorities();
        Some(Authentication(a.principal.(authorities := authorities), a.credentials, authorities))
  }

  /** The corrected filter installs an identity exactly when the original does, for the same user. */
  lemma OutcomeWithRolesAgrees(existing: Option<Authentication>, authorization: Option<string>,
                               decode: string -> Result<Jwt.Claims, DecodeError>, users: map<int, Users.UserRow>)
    ensures var r := Outcome(existing, authorization, decode, users);
      var c := OutcomeWithRoles(existing, authorization, decode, users);
      (c == existing <==> r == existing)
      && (c != existing ==> c.value.principal.userId == r.value.principal.userId && c.value.principal.email == r.value.principal.email)
  {
  }
}
