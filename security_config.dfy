/**
 * The request authorization table: an ordered list of (method, path patterns) rules, each with a
 * requirement, of which the first that matches decides. A final rule makes every other request
 * require authentication. Also the JSON 401 entry point and the CORS constants.
 */
module SecurityConfig {
  import opened Wrappers
  import opened Text
  import JwtAuthenticationFilter
  import UserPrincipal
  import Users

  datatype HttpMethod = GET | HEAD | POST | PUT | PATCH | DELETE | OPTIONS | TRACE

  // The path patterns the table uses: an exact path, p followed by the double-star suffix
  // (p itself and everything below it), and the bare double-star pattern (every path).
  datatype Pattern = Exact(path: string) | Below(prefix: string) | AnyPath

  datatype Requirement = PermitAll | Authenticated | HasRole(role: string)

  /** A rule with no method applies to every method. */
  datatype Rule = Rule(verb: Option<HttpMethod>, patterns: seq<Pattern>, requirement: Requirement)

  predicate PatternMatches(p: Pattern, path: string) {
    match p
    case Exact(q) => path == q
    case Below(prefix) => path == prefix || StartsWith(path, prefix + "/")
    case AnyPath => true
  }

  predicate RuleMatches(rule: Rule, m: HttpMethod, path: string) {
    (rule.verb.None? || rule.verb.value == m)
    && AnyPatternMatches(rule.patterns, path)
  }

  predicate AnyPatternMatches(patterns: seq<Pattern>, path: string) {
    |patterns| > 0 && (PatternMatches(patterns[0], path) || AnyPatternMatches(patterns[1..], path))
  }

  /** The rules of securityFilterChain, in declaration order. */
  const Rules: seq<Rule> := [
    Rule(None, [Exact("/api/hello"), Exact("/api/health"), Exact("/favicon.ico")], PermitAll),
    Rule(None, [Exact("/actuator/health"), Below("/actuator/health")], PermitAll),
    Rule(Some(POST), [Exact("/api/log")], PermitAll),
    Rule(Some(GET), [Exact("/api/plan/me")], PermitAll),
    Rule(Some(POST), [Exact("/api/auth/login")], PermitAll),
    Rule(Some(POST), [Exact("/api/auth/register")], PermitAll),
    Rule(Some(OPTIONS), [AnyPath], PermitAll),
    Rule(None, [Below("/api/admin")], HasRole("ADMIN")),
    Rule(None, [Exact("/api/config"), Exact("/api/dbinfo"), Exact("/api/dbversion")], HasRole("ADMIN")),
    Rule(None, [Below("/actuator")], HasRole("ADMIN")),
    Rule(None, [AnyPath], Authenticated)
  ]

  /** Index of the first rule that matches. */
  function FirstMatch(rules: seq<Rule>, m: HttpMethod, path: string): (r: Option<nat>)
    ensures r.Some? ==> r.value < |rules| && RuleMatches(rules[r.value], m, path)
    ensures r.Some? ==> forall j :: 0 <= j < r.value ==> !RuleMatches(rules[j], m, path)
    ensures r.None? ==> forall j :: 0 <= j < |rules| ==> !RuleMatches(rules[j], m, path)
  {
    if |rules| == 0 then None
    else if RuleMatches(rules[0], m, path) then Some(0)
    else match FirstMatch(rules[1..], m, path)
      case None => None
      case Some(k) => Some(k + 1)
  }

  /** The requirement that governs a request: the first matching rule's. */
  function RequirementFor(m: HttpMethod, path: string): (r: Requirement)
    ensures exists k :: 0 <= k < |Rules| && RuleMatches(Rules[k], m, path) && r == Rules[k].requirement
                     && forall j :: 0 <= j < k ==> !RuleMatches(Rules[j], m, path)
  {
    assert RuleMatches(Rules[10], m, path) by { AnyOfOne(AnyPath, path); }
    var k := FirstMatch(Rules, m, path);
    Rules[k.value].requirement
  }

  datatype Decision = Allow | Unauthorized | Forbidden

  /** The authority hasRole(role) looks for. */
  function RoleAuthority(role: string): string {
    "ROLE_" + role
  }

  /**
   * Access decision for a request carrying the authorities of its identity, or none when
   * anonymous: an anonymous request that is refused goes to the entry point (401), an
   * authenticated one to the access-denied handler (403).
   */
  function Decide(m: HttpMethod, path: string, identity: Option<seq<string>>): (d: Decision)
    ensures d == Unauthorized ==> identity.None?
    ensures d == Forbidden ==> identity.Some? && RequirementFor(m, path).HasRole?
    ensures d == Allow <==> (match RequirementFor(m, path)
      case PermitAll => true
      case Authenticated => identity.Some?
      case HasRole(role) => identity.Some? && RoleAuthority(role) in identity.value)
  {
    match RequirementFor(m, path)
    case PermitAll => Allow
    case Authenticated => if identity.None? then Unauthorized else Allow
    case HasRole(role) =>
      if identity.None? then Unauthorized
      else if RoleAuthority(role) in identity.value then Allow else Forbidden
  }

  /** The authorities of the identity a filter run leaves in the context. */
  function IdentityOf(a: Option<JwtAuthenticationFilter.Authentication>): Option<seq<string>> {
    if a.None? then None else Some(a.value.authorities)
  }

  datatype Response = Response(status: int, contentType: string, body: string)

  /** The authentication entry point: a fixed JSON body, never an HTML page. */
  const UnauthorizedResponse: Response := Response(401, "application/json", "{\"error\":\"unauthorized\"}")

  /** CORS: credentials allowed for three origins and five methods, preflight cached one hour, for every path. */
  const AllowedOrigins: seq<string> := ["http://localhost:5173", "http://localhost:8080", "https://ltj54.github.io"]
  const AllowedMethods: seq<string> := ["GET", "POST", "PUT", "DELETE", "OPTIONS"]
  const AllowedHeaders: seq<string> := ["Content-Type", "Authorization", "X-Requested-With", "Accept"]
  const ExposedHeaders: seq<string> := ["Authorization", "Content-Disposition"]
  const MaxAgeSeconds: int := 3600

  /** A path that starts with p and a path that starts with q, where p and q differ at position i, are different. */
  lemma PrefixesDiffer(path: string, p: string, q: string, i: nat)
    requires StartsWith(path, p) && i < |p| && i < |q| && p[i] != q[i]
    ensures !StartsWith(path, q) && path != q
  {
    assert path[i] == p[i];
  }

  lemma AnyOfOne(a: Pattern, path: string)
    ensures AnyPatternMatches([a], path) <==> PatternMatches(a, path)
  {
    assert [a][1..] == [];
  }

  lemma AnyOfTwo(a: Pattern, b: Pattern, path: string)
    ensures AnyPatternMatches([a, b], path) <==> PatternMatches(a, path) || PatternMatches(b, path)
  {
    assert [a, b][1..] == [b];
    AnyOfOne(b, path);
  }

  lemma AnyOfThree(a: Pattern, b: Pattern, c: Pattern, path: string)
    ensures AnyPatternMatches([a, b, c], path) <==> PatternMatches(a, path) || PatternMatches(b, path) || PatternMatches(c, path)
  {
    assert [a, b, c][1..] == [b, c];
    AnyOfTwo(b, c, path);
  }

  /** What each rule of the table matches, in plain terms. */
  lemma PublicRulesMatch(m: HttpMethod, path: string)
    ensures RuleMatches(Rules[0], m, path) <==> path == "/api/hello" || path == "/api/health" || path == "/favicon.ico"
    ensures RuleMatches(Rules[1], m, path) <==> path == "/actuator/health" || StartsWith(path, "/actuator/health/")
    ensures RuleMatches(Rules[2], m, path) <==> m == POST && path == "/api/log"
    ensures RuleMatches(Rules[3], m, path) <==> m == GET && path == "/api/plan/me"
    ensures RuleMatches(Rules[4], m, path) <==> m == POST && path == "/api/auth/login"
    ensures RuleMatches(Rules[5], m, path) <==> m == POST && path == "/api/auth/register"
    ensures RuleMatches(Rules[6], m, path) <==> m == OPTIONS
  {
    PathRulesMatch(m, path);
    MethodRulesMatch(m, path);
  }

  /** The public rules that hold for every method. */
  lemma PathRulesMatch(m: HttpMethod, path: string)
    ensures RuleMatches(Rules[0], m, path) <==> path == "/api/hello" || path == "/api/health" || path == "/favicon.ico"
    ensures RuleMatches(Rules[1], m, path) <==> path == "/actuator/health" || StartsWith(path, "/actuator/health/")
  {
    AnyOfThree(Exact("/api/hello"), Exact("/api/health"), Exact("/favicon.ico"), path);
    AnyOfTwo(Exact("/actuator/health"), Below("/actuator/health"), path);
  }

  /** The public rules tied to one method. */
  lemma MethodRulesMatch(m: HttpMethod, path: string)
    ensures RuleMatches(Rules[2], m, path) <==> m == POST && path == "/api/log"
    ensures RuleMatches(Rules[3], m, path) <==> m == GET && path == "/api/plan/me"
    ensures RuleMatches(Rules[4], m, path) <==> m == POST && path == "/api/auth/login"
    ensures RuleMatches(Rules[5], m, path) <==> m == POST && path == "/api/auth/register"
    ensures RuleMatches(Rules[6], m, path) <==> m == OPTIONS
  {
    AnyOfOne(Exact("/api/log"), path);
    AnyOfOne(Exact("/api/plan/me"), path);
    AnyOfOne(Exact("/api/auth/login"), path);
    AnyOfOne(Exact("/api/auth/register"), path);
    AnyOfOne(AnyPath, path);
  }

  lemma AdminRulesMatch(m: HttpMethod, path: string)
    ensures RuleMatches(Rules[7], m, path) <==> path == "/api/admin" || StartsWith(path, "/api/admin/")
    ensures RuleMatches(Rules[8], m, path) <==> path == "/api/config" || path == "/api/dbinfo" || path == "/api/dbversion"
    ensures RuleMatches(Rules[9], m, path) <==> path == "/actuator" || StartsWith(path, "/actuator/")
    ensures RuleMatches(Rules[10], m, path)
  {
    AnyOfOne(Below("/api/admin"), path);
    AnyOfThree(Exact("/api/config"), Exact("/api/dbinfo"), Exact("/api/dbversion"), path);
    AnyOfOne(Below("/actuator"), path);
    AnyOfOne(AnyPath, path);
  }

  /** First match wins: a rule that matches after no earlier one did governs the request. */
  lemma GovernedBy(m: HttpMethod, path: string, k: nat)
    requires k < |Rules| && RuleMatches(Rules[k], m, path)
    requires forall j :: 0 <= j < k ==> !RuleMatches(Rules[j], m, path)
    ensures RequirementFor(m, path) == Rules[k].requirement
  {
    assert FirstMatch(Rules, m, path) == Some(k);
  }

  /** Every one of the first seven rules permits all, so a request one of them matches is public. */
  lemma EarlyMatchPublic(m: HttpMethod, path: string, k: nat)
    requires k <= 6 && RuleMatches(Rules[k], m, path)
    ensures RequirementFor(m, path) == PermitAll
  {
    var f := FirstMatch(Rules, m, path);
    assert f.Some? && f.value <= k;
  }

  /** The probe and greeting endpoints are public for every method. */
  lemma PublicPaths(m: HttpMethod, path: string)
    requires path == "/api/hello" || path == "/api/health" || path == "/favicon.ico"
      || path == "/actuator/health" || StartsWith(path, "/actuator/health/")
    ensures RequirementFor(m, path) == PermitAll
  {
    PublicRulesMatch(m, path);
    if path == "/api/hello" || path == "/api/health" || path == "/favicon.ico" {
      EarlyMatchPublic(m, path, 0);
    } else {
      EarlyMatchPublic(m, path, 1);
    }
  }

  /** A preflight request is public on every path, the admin and actuator paths included: its rule precedes theirs. */
  lemma OptionsPublic(path: string)
    ensures RequirementFor(OPTIONS, path) == PermitAll
  {
    PublicRulesMatch(OPTIONS, path);
    EarlyMatchPublic(OPTIONS, path, 6);
  }


  /** A path that does not start with p neither starts with nor equals a string that extends p. */
  lemma NotExtending(path: string, p: string, q: string)
    requires !StartsWith(path, p) && StartsWith(q, p)
    ensures !StartsWith(path, q) && path != q
  {
  }

  /** A path below /api/ is no probe, favicon or actuator path. */
  lemma ApiPathIsNoProbe(path: string)
    requires StartsWith(path, "/api/")
    ensures path != "/favicon.ico" && path != "/actuator/health" && !StartsWith(path, "/actuator/health/")
    ensures path != "/actuator" && !StartsWith(path, "/actuator/")
  {
    PrefixesDiffer(path, "/api/", "/favicon.ico", 1);
    PrefixesDiffer(path, "/api/", "/actuator/health", 2);
    PrefixesDiffer(path, "/api/", "/actuator/health/", 2);
    PrefixesDiffer(path, "/api/", "/actuator", 2);
    PrefixesDiffer(path, "/api/", "/actuator/", 2);
  }

  /**
   * Every API path other than the public endpoints, the admin tree and the three system paths needs
   * only an authenticated identity, for every method but OPTIONS; "/api/system/users" of the
   * system information controller is one of them.
   */
  lemma OtherApiPathsAuthenticated(m: HttpMethod, path: string)
    requires m != OPTIONS && StartsWith(path, "/api/")
    requires path != "/api/hello" && path != "/api/health"
    requires m == POST ==> path != "/api/log" && path != "/api/auth/login" && path != "/api/auth/register"
    requires m == GET ==> path != "/api/plan/me"
    requires path != "/api/admin" && !StartsWith(path, "/api/admin/")
    requires path != "/api/config" && path != "/api/dbinfo" && path != "/api/dbversion"
    ensures RequirementFor(m, path) == Authenticated
  {
    ApiPathIsNoProbe(path);
    PublicRulesMatch(m, path);
    AdminRulesMatch(m, path);
    NoEarlierRule(m, path, 10);
    GovernedBy(m, path, 10);
  }

  /**
   * The method-specific public endpoints: POST /api/log, GET /api/plan/me and POST on the login and
   * register paths. Any other method on them falls through to the last rule, except a preflight.
   */
  lemma MethodSpecificPublic(m: HttpMethod, path: string)
    requires path == "/api/log" || path == "/api/plan/me" || path == "/api/auth/login" || path == "/api/auth/register"
    ensures var allowed := if path == "/api/plan/me" then GET else POST;
      RequirementFor(m, path) == if m == allowed || m == OPTIONS then PermitAll else Authenticated
  {
    var allowed := if path == "/api/plan/me" then GET else POST;
    PublicRulesMatch(m, path);
    if m == allowed {
      var k := if path == "/api/log" then 2 else if path == "/api/plan/me" then 3 else if path == "/api/auth/login" then 4 else 5;
      EarlyMatchPublic(m, path, k);
    } else if m == OPTIONS {
      OptionsPublic(path);
    } else {
      assert StartsWith(path, "/api/") by { assert path[..5] == "/api/"; }
      PrefixesDiffer(path, path, "/api/admin", 6);
      PrefixesDiffer(path, path, "/api/admin/", 6);
      OtherApiPathsAuthenticated(m, path);
    }
  }

  /** No earlier rule matches, given rule by rule. */
  lemma NoEarlierRule(m: HttpMethod, path: string, k: nat)
    requires k <= 10
    requires k > 0 ==> !RuleMatches(Rules[0], m, path)
    requires k > 1 ==> !RuleMatches(Rules[1], m, path)
    requires k > 2 ==> !RuleMatches(Rules[2], m, path)
    requires k > 3 ==> !RuleMatches(Rules[3], m, path)
    requires k > 4 ==> !RuleMatches(Rules[4], m, path)
    requires k > 5 ==> !RuleMatches(Rules[5], m, path)
    requires k > 6 ==> !RuleMatches(Rules[6], m, path)
    requires k > 7 ==> !RuleMatches(Rules[7], m, path)
    requires k > 8 ==> !RuleMatches(Rules[8], m, path)
    requires k > 9 ==> !RuleMatches(Rules[9], m, path)
    ensures forall j :: 0 <= j < k ==> !RuleMatches(Rules[j], m, path)
  {
  }

  /** A path in the /api/admin tree is none of the paths the earlier rules name. */
  lemma AdminTreeIsNoEarlierPath(path: string)
    requires path == "/api/admin" || StartsWith(path, "/api/admin/")
    ensures path != "/api/hello" && path != "/api/health" && path != "/favicon.ico"
    ensures path != "/actuator/health" && !StartsWith(path, "/actuator/health/")
    ensures path != "/api/log" && path != "/api/plan/me" && path != "/api/auth/login" && path != "/api/auth/register"
  {
    var p := if path == "/api/admin" then "/api/admin" else "/api/admin/";
    assert StartsWith(path, p);
    PrefixesDiffer(path, p, "/api/hello", 5);
    PrefixesDiffer(path, p, "/api/health", 5);
    PrefixesDiffer(path, p, "/favicon.ico", 1);
    PrefixesDiffer(path, p, "/actuator/health", 2);
    PrefixesDiffer(path, p, "/actuator/health/", 2);
    PrefixesDiffer(path, p, "/api/log", 5);
    PrefixesDiffer(path, p, "/api/plan/me", 5);
    PrefixesDiffer(path, p, "/api/auth/login", 6);
    PrefixesDiffer(path, p, "/api/auth/register", 6);
  }

  /** Outside OPTIONS, the /api/admin tree needs role ADMIN. */
  lemma AdminTreeNeedsAdmin(m: HttpMethod, path: string)
    requires m != OPTIONS && (path == "/api/admin" || StartsWith(path, "/api/admin/"))
    ensures RequirementFor(m, path) == HasRole("ADMIN")
  {
    AdminTreeIsNoEarlierPath(path);
    PublicRulesMatch(m, path);
    AdminRulesMatch(m, path);
    NoEarlierRule(m, path, 7);
    GovernedBy(m, path, 7);
  }

  /** /api/config, /api/dbinfo and /api/dbversion are none of the paths the earlier rules name. */
  lemma SystemEndpointIsNoEarlierPath(path: string)
    requires path == "/api/config" || path == "/api/dbinfo" || path == "/api/dbversion"
    ensures path != "/api/hello" && path != "/api/health" && path != "/favicon.ico"
    ensures path != "/actuator/health" && !StartsWith(path, "/actuator/health/")
    ensures path != "/api/log" && path != "/api/plan/me" && path != "/api/auth/login" && path != "/api/auth/register"
    ensures path != "/api/admin" && !StartsWith(path, "/api/admin/")
  {
    assert StartsWith(path, "/api/") by { assert path[..5] == "/api/"; }
    ApiPathIsNoProbe(path);
    PrefixesDiffer(path, path, "/api/admin", 5);
    PrefixesDiffer(path, path, "/api/admin/", 5);
  }

  /** Outside OPTIONS, /api/config, /api/dbinfo and /api/dbversion need role ADMIN. */
  lemma SystemEndpointsNeedAdmin(m: HttpMethod, path: string)
    requires m != OPTIONS && (path == "/api/config" || path == "/api/dbinfo" || path == "/api/dbversion")
    ensures RequirementFor(m, path) == HasRole("ADMIN")
  {
    SystemEndpointIsNoEarlierPath(path);
    PublicRulesMatch(m, path);
    AdminRulesMatch(m, path);
    NoEarlierRule(m, path, 8);
    GovernedBy(m, path, 8);
  }

  /** A path in the actuator tree is none of the /api/ paths or the favicon. */
  lemma ActuatorIsNoApiPath(path: string)
    requires path == "/actuator" || StartsWith(path, "/actuator/")
    ensures path != "/api/hello" && path != "/api/health" && path != "/favicon.ico"
    ensures path != "/api/log" && path != "/api/plan/me" && path != "/api/auth/login" && path != "/api/auth/register"
    ensures path != "/api/admin" && !StartsWith(path, "/api/admin/")
    ensures path != "/api/config" && path != "/api/dbinfo" && path != "/api/dbversion"
  {
    var p := if path == "/actuator" then "/actuator" else "/actuator/";
    assert StartsWith(path, p);
    PrefixesDiffer(path, p, "/api/hello", 2);
    PrefixesDiffer(path, p, "/api/health", 2);
    PrefixesDiffer(path, p, "/favicon.ico", 1);
    PrefixesDiffer(path, p, "/api/log", 2);
    PrefixesDiffer(path, p, "/api/plan/me", 2);
    PrefixesDiffer(path, p, "/api/auth/login", 2);
    PrefixesDiffer(path, p, "/api/auth/register", 2);
    PrefixesDiffer(path, p, "/api/admin", 2);
    PrefixesDiffer(path, p, "/api/admin/", 2);
    PrefixesDiffer(path, p, "/api/config", 2);
    PrefixesDiffer(path, p, "/api/dbinfo", 2);
    PrefixesDiffer(path, p, "/api/dbversion", 2);
  }

  /** Outside OPTIONS, the actuator tree other than health needs role ADMIN. */
  lemma ActuatorNeedsAdmin(m: HttpMethod, path: string)
    requires m != OPTIONS && (path == "/actuator" || StartsWith(path, "/actuator/"))
    requires path != "/actuator/health" && !StartsWith(path, "/actuator/health/")
    ensures RequirementFor(m, path) == HasRole("ADMIN")
  {
    ActuatorIsNoApiPath(path);
    PublicRulesMatch(m, path);
    AdminRulesMatch(m, path);
    NoEarlierRule(m, path, 9);
    GovernedBy(m, path, 9);
  }

  /** "/actuator/health" and the paths below it are public although the later "/actuator" subtree rule also matches them. */
  lemma HealthBeforeActuator(m: HttpMethod, path: string)
    requires path == "/actuator/health" || StartsWith(path, "/actuator/health/")
    ensures RuleMatches(Rules[9], m, path) && Rules[9].requirement == HasRole("ADMIN")
    ensures RequirementFor(m, path) == PermitAll
  {
    PublicPaths(m, path);
    AdminRulesMatch(m, path);
    if path != "/actuator/health" {
      assert path[..10] == "/actuator/health/"[..10];
    }
  }

  /** Paths outside /api/ and /actuator, other than the favicon, need only authentication. */
  lemma OtherPathsAuthenticated(m: HttpMethod, path: string)
    requires m != OPTIONS && !StartsWith(path, "/api/") && !StartsWith(path, "/actuator") && path != "/favicon.ico"
    ensures RequirementFor(m, path) == Authenticated
  {
    OtherPathIsNoNamedPath(path);
    PublicRulesMatch(m, path);
    AdminRulesMatch(m, path);
    NoEarlierRule(m, path, 10);
    GovernedBy(m, path, 10);
  }

  /** A path outside /api/ and /actuator is none of the paths the rules name. */
  lemma OtherPathIsNoNamedPath(path: string)
    requires !StartsWith(path, "/api/") && !StartsWith(path, "/actuator")
    ensures path != "/api/hello" && path != "/api/health"
    ensures path != "/actuator/health" && !StartsWith(path, "/actuator/health/")
    ensures path != "/api/log" && path != "/api/plan/me" && path != "/api/auth/login" && path != "/api/auth/register"
    ensures path != "/api/admin" && !StartsWith(path, "/api/admin/")
    ensures path != "/api/config" && path != "/api/dbinfo" && path != "/api/dbversion"
    ensures path != "/actuator" && !StartsWith(path, "/actuator/")
  {
    var api := ["/api/hello", "/api/health", "/api/log", "/api/plan/me", "/api/auth/login", "/api/auth/register",
                "/api/admin", "/api/admin/", "/api/config", "/api/dbinfo", "/api/dbversion"];
    forall q | q in api ensures !StartsWith(path, q) && path != q {
      NotExtending(path, "/api/", q);
    }
    var actuator := ["/actuator/health", "/actuator/health/", "/actuator", "/actuator/"];
    forall q | q in actuator ensures !StartsWith(path, q) && path != q {
      NotExtending(path, "/actuator", q);
    }
  }

  /** An anonymous request is refused on every path that is not public, and refused with the JSON 401. */
  lemma AnonymousRefusedUnlessPublic(m: HttpMethod, path: string)
    ensures Decide(m, path, None) == (if RequirementFor(m, path) == PermitAll then Allow else Unauthorized)
    ensures UnauthorizedResponse.status == 401 && UnauthorizedResponse.contentType == "application/json"
  {
  }

  /**
   * The identity the authentication filter installs has no authorities, so no request it
   * authenticates passes a role rule: outside OPTIONS every admin path is forbidden to it.
   */
  lemma FilterIdentityNeverAdmin(m: HttpMethod, path: string, authorization: Option<string>,
                                 decode: string -> Result<JwtAuthenticationFilter.Jwt.Claims, JwtAuthenticationFilter.DecodeError>,
                                 users: map<int, JwtAuthenticationFilter.Users.UserRow>)
    requires RequirementFor(m, path).HasRole?
    ensures Decide(m, path, IdentityOf(JwtAuthenticationFilter.Outcome(None, authorization, decode, users))) != Allow
  {
  }

  /**
   * With the corrected filter, which installs the user's ROLE_ authority, a user whose stored
   * role is ADMIN in any letter case passes every role rule.
   */
  lemma CorrectedFilterAdminAllowed(m: HttpMethod, path: string, authorization: Option<string>,
                                    decode: string -> Result<JwtAuthenticationFilter.Jwt.Claims, JwtAuthenticationFilter.DecodeError>,
                                    users: map<int, Users.UserRow>)
    requires RequirementFor(m, path) == HasRole("ADMIN")
    requires var r := JwtAuthenticationFilter.OutcomeWithRoles(None, authorization, decode, users);
      r.Some? && r.value.principal.userId in users
      && Users.NormalizeRole(users[r.value.principal.userId].role) == "ADMIN"
    ensures Decide(m, path, IdentityOf(JwtAuthenticationFilter.OutcomeWithRoles(None, authorization, decode, users))) == Allow
  {
    var r := JwtAuthenticationFilter.OutcomeWithRoles(None, authorization, decode, users);
    var user := users[r.value.principal.userId];
    UserPrincipal.AdminAuthority(Users.NormalizeRole(user.role));
    assert r.value.authorities == [UserPrincipal.Authority(Users.NormalizeRole(user.role))];
  }
}
