/** Token issuing and reading with the configured key; the clock reading is a parameter (milliseconds since the epoch). */
module JwtUtil {
  import opened Wrappers
  import opened Jwt

  /** 24 hours. */
  const ExpirationMs: int := 1000 * 60 * 60 * 24

  /** generateToken: sub = email, a "userId" claim, iat = now and exp = now + 24 h, signed HS256. */
  function GenerateToken(key: Key, nowMs: nat, userId: int, email: string): SignedJwt {
    Sign(key, HS256, Claims(None, Some(email), Some(EpochSeconds(nowMs)), Some(EpochSeconds(nowMs + ExpirationMs)),
      map["userId" := CNumber(userId)]))
  }

  /** decode: verification with the configured key; every failure is a JwtException. */
  function Decode(key: Key, nowMs: int, token: SignedJwt): Result<Claims, JwtError> {
    Verify(key, nowMs, token)
  }

  /** isTokenExpired: Date.before, so an expiry equal to now is not expired. */
  predicate IsTokenExpired(expirationMs: int, nowMs: int) {
    expirationMs < nowMs
  }

  /** The instant, in milliseconds, that the exp claim of a token issued at nowMs denotes. */
  function ExpiresAtMs(nowMs: nat): (r: int)
    ensures nowMs + ExpirationMs - 1000 < r <= nowMs + ExpirationMs
  {
    EpochSeconds(nowMs + ExpirationMs) * 1000
  }

  /** The claims of a generated token: the subject is the email, the userId claim reads back as the id, the lifetime is 86 400 s. */
  lemma GeneratedClaims(key: Key, nowMs: nat, userId: int, email: string)
    ensures var c := GenerateToken(key, nowMs, userId, email).claims;
      c.subject == Some(email)
      && GetLong(c, "userId") == Ok(Some(userId))
      && c.expiration.value - c.issuedAt.value == ExpirationMs / 1000
      && GenerateToken(key, nowMs, userId, email).alg == HS256
  {
  }

  /** Round trip: under the same key a generated token decodes to its claims until exp, and is rejected afterwards or under any other key. */
  lemma DecodeGenerated(key: Key, other: Key, issuedMs: nat, nowMs: int, userId: int, email: string)
    ensures var t := GenerateToken(key, issuedMs, userId, email);
      (Decode(key, nowMs, t).Ok? <==> !IsTokenExpired(ExpiresAtMs(issuedMs), nowMs))
      && (Decode(key, nowMs, t).Ok? ==> Decode(key, nowMs, t).value == t.claims)
      && (other != key ==> Decode(other, nowMs, t) == Err(SignatureInvalid))
  {
    var t := GenerateToken(key, issuedMs, userId, email);
    SignThenVerify(key, other, HS256, t.claims, nowMs);
  }

  /** decode reports expiry exactly when isTokenExpired holds for the token's exp. */
  lemma DecodeExpiredIff(key: Key, nowMs: int, token: SignedJwt)
    requires token.tag == Mac(key, token.alg, token.claims)
    requires token.claims.expiration.Some?
    ensures Decode(key, nowMs, token) == Err(Expired) <==> IsTokenExpired(token.claims.expiration.value * 1000, nowMs)
  {
  }
}
