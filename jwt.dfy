/**
 * The parts of a JSON Web Token (RFC 7519) that the backend builds and reads, with signing as an
 * ideal MAC: the tag of a token records the key and the claims it was computed over, so
 * verification with a key succeeds exactly for tokens that key signed. The compact
 * base64url serialisation and HMAC-SHA256 itself are not modelled.
 */
module Jwt {
  import opened Wrappers
  import Base64

  type Key = seq<Base64.Byte>

  datatype ClaimValue = CNumber(n: int) | CText(s: string)

  /** jti, sub, iat and exp of RFC 7519 section 4.1 (iat and exp in seconds), and the private claims. */
  datatype Claims = Claims(
    id: Option<string>,
    subject: Option<string>,
    issuedAt: Option<int>,
    expiration: Option<int>,
    custom: map<string, ClaimValue>)

  datatype Algorithm = HS256

  datatype Tag = Mac(key: Key, alg: Algorithm, claims: Claims)

  datatype SignedJwt = SignedJwt(alg: Algorithm, claims: Claims, tag: Tag)

  /** The exceptions parsing and claim access raise; all are JwtExceptions. */
  datatype JwtError = SignatureInvalid | Expired | RequiredTypeMismatch(claim: string)

  function Sign(key: Key, alg: Algorithm, claims: Claims): SignedJwt {
    SignedJwt(alg, claims, Mac(key, alg, claims))
  }

  /** A java.util.Date in milliseconds as a NumericDate: Java's long division, truncating toward zero. */
  function EpochSeconds(ms: int): (r: int)
    ensures ms >= 0 ==> 0 <= ms - r * 1000 < 1000
    ensures ms < 0 ==> -1000 < ms - r * 1000 <= 0
  {
    if ms >= 0 then ms / 1000 else -((-ms) / 1000)
  }

  /** The expiry check: a token whose exp lies strictly before now is expired. */
  predicate ExpiredAt(claims: Claims, nowMs: int) {
    claims.expiration.Some? && nowMs > claims.expiration.value * 1000
  }

  /** parseSignedClaims after verifyWith(key): the signature first, then the expiry. */
  function Verify(key: Key, nowMs: int, token: SignedJwt): (r: Result<Claims, JwtError>)
    ensures r.Ok? ==> r.value == token.claims
  {
    if token.tag != Mac(key, token.alg, token.claims) then Err(SignatureInvalid)
    else if ExpiredAt(token.claims, nowMs) then Err(Expired)
    else Ok(token.claims)
  }

  /** Signing and verifying are an ideal pair: a token verifies under its own key until it expires, and never under another. */
  lemma SignThenVerify(key: Key, other: Key, alg: Algorithm, claims: Claims, nowMs: int)
    ensures Verify(key, nowMs, Sign(key, alg, claims)) == (if ExpiredAt(claims, nowMs) then Err(Expired) else Ok(claims))
    ensures other != key ==> Verify(other, nowMs, Sign(key, alg, claims)) == Err(SignatureInvalid)
  {
  }

  /** claims.get(name, Long.class): null when absent, the number when it is one, an exception otherwise. */
  function GetLong(claims: Claims, name: string): (r: Result<Option<int>, JwtError>)
    ensures name !in claims.custom ==> r == Ok(None)
    ensures r.Err? <==> name in claims.custom && claims.custom[name].CText?
  {
    if name !in claims.custom then Ok(None)
    else match claims.custom[name]
      case CNumber(n) => Ok(Some(n))
      case CText(_) => Err(RequiredTypeMismatch(name))
  }
}
