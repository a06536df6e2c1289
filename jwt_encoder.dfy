/** The alternative token issuer built from a UserPrincipal, with the lifetime taken from JwtProperties. */
module JwtEncoder {
  import opened Wrappers
  import opened Jwt
  import UserPrincipal
  import JwtUtil

  /** The jwt.* configuration properties. */
  datatype JwtProperties = JwtProperties(secret: Option<string>, expirationHours: int)

  /** A fresh properties object: no secret and 24 hours. */
  function DefaultProperties(): JwtProperties {
    JwtProperties(None, 24)
  }

  /** getExpiration: Duration.ofHours, in milliseconds. */
  function ExpirationMs(properties: JwtProperties): int {
    properties.expirationHours * 60 * 60 * 1000
  }

  /**
   * encode: a fresh jti (the random UUID, as a parameter), sub = the principal's username,
   * iat = now, exp = now + the configured duration, the id under "uid" (a null id adds no claim),
   * signed HS256.
   */
  function Encode(key: Key, properties: JwtProperties, principal: UserPrincipal.Principal, nowMs: nat, jti: string): SignedJwt {
    var custom := if principal.id.Some? then map["uid" := CNumber(principal.id.value)] else map[];
    Sign(key, HS256, Claims(Some(jti), principal.Username(), Some(EpochSeconds(nowMs)),
      Some(EpochSeconds(nowMs + ExpirationMs(properties))), custom))
  }

  /** What an encoded token carries; in particular it has no "userId" claim. */
  lemma EncodedClaims(key: Key, properties: JwtProperties, principal: UserPrincipal.Principal, nowMs: nat, jti: string)
    ensures var t := Encode(key, properties, principal, nowMs, jti);
      t.alg == HS256 && t.tag == Mac(key, HS256, t.claims)
      && t.claims.id == Some(jti)
      && t.claims.subject == principal.email
      && GetLong(t.claims, "uid") == Ok(principal.id)
      && GetLong(t.claims, "userId") == Ok(None)
  {
  }

  /** With the default properties the lifetime is 24 hours, the same as JwtUtil's. */
  lemma DefaultLifetime(key: Key, principal: UserPrincipal.Principal, nowMs: nat, jti: string)
    ensures var c := Encode(key, DefaultProperties(), principal, nowMs, jti).claims;
      c.expiration.value - c.issuedAt.value == 86400
      && ExpirationMs(DefaultProperties()) == JwtUtil.ExpirationMs
  {
  }

  /** encode with the id under "userId", the claim name JwtUtil writes and the authentication filter reads. */
  function EncodeWithUserId(key: Key, properties: JwtProperties, principal: UserPrincipal.Principal, nowMs: nat, jti: string): SignedJwt {
    var custom := if principal.id.Some? then map["userId" := CNumber(principal.id.value)] else map[];
    Sign(key, HS256, Claims(Some(jti), principal.Username(), Some(EpochSeconds(nowMs)),
      Some(EpochSeconds(nowMs + ExpirationMs(properties))), custom))
  }

  /** The corrected claims: the same as encode's except that the id reads back under "userId". */
  lemma EncodedWithUserIdClaims(key: Key, properties: JwtProperties, principal: UserPrincipal.Principal, nowMs: nat, jti: string)
    ensures var t := EncodeWithUserId(key, properties, principal, nowMs, jti);
      t.alg == HS256 && t.tag == Mac(key, HS256, t.claims)
      && t.claims.subject == principal.email
      && GetLong(t.claims, "userId") == Ok(principal.id)
      && t.claims.(custom := map[]) == Encode(key, properties, principal, nowMs, jti).claims.(custom := map[])
  {
  }
}
