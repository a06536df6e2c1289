/**
 * Turning the configured secret into HMAC key bytes of at least 32 bytes, the HS256 minimum of
 * RFC 7518 section 3.2. The secret is read as Base64 (section 4 of RFC 4648); the Base64url
 * fallback (section 5) is guarded by a catch clause the library's decoder never triggers, so it is
 * modelled as written and, separately, as its comment means it.
 */
module JwtConfiguration {
  import opened Wrappers
  import opened Text
  import Base64
  import Jwt

  const MinimumKeyBytes: nat := 32

  /**
   * What aborts creation of the key bean: one of the three IllegalStateExceptions, or the
   * library decoder's DecodingException, which is not an IllegalArgumentException and so
   * propagates past both catch clauses.
   */
  datatype ConfigError = SecretMissing | SecretNotBase64 | SecretTooShort | DecodingFailed

  /** The IllegalStateExceptions' messages; the DecodingException carries the library's own text. */
  function Message(e: ConfigError): string
    requires !e.DecodingFailed?
  {
    match e
    case SecretMissing => "JWT secret is missing. Set 'jwt.secret' in application.properties or Render env vars."
    case SecretNotBase64 => "Invalid JWT secret. It must be Base64 or Base64URL encoded (no other characters are allowed)."
    case SecretTooShort => "JWT secret is too short. Must be at least 256 bits (32 bytes) when Base64-decoded."
  }

  /**
   * decodeSecret as written: the Base64 decoder's bytes, and for a text it rejects its
   * DecodingException, which neither catch clause names; the Base64url decoder is never tried and
   * the "Invalid JWT secret" exception is never thrown.
   */
  function DecodeSecretAsWritten(secret: string): (r: Result<seq<Base64.Byte>, ConfigError>)
    ensures r.Ok? <==> Base64.Decode(Base64.StandardAlphabet, secret).Some?
    ensures r.Ok? ==> r.value == Base64.Decode(Base64.StandardAlphabet, secret).value
    ensures r.Err? ==> r.error == DecodingFailed
  {
    match Base64.Decode(Base64.StandardAlphabet, secret)
    case Some(bytes) => Ok(bytes)
    case None => Err(DecodingFailed)
  }

  /** decodeSecret as its comment means it: Base64 first and, only when that rejects the text, Base64url. */
  function DecodeSecret(secret: string): (r: Result<seq<Base64.Byte>, ConfigError>)
    ensures r.Ok? <==> Base64.Decode(Base64.StandardAlphabet, secret).Some? || Base64.Decode(Base64.UrlAlphabet, secret).Some?
    ensures Base64.Decode(Base64.StandardAlphabet, secret).Some? ==> r == Ok(Base64.Decode(Base64.StandardAlphabet, secret).value)
    ensures Base64.Decode(Base64.StandardAlphabet, secret).None? && r.Ok? ==> r == Ok(Base64.Decode(Base64.UrlAlphabet, secret).value)
    ensures r.Err? ==> r.error == SecretNotBase64
  {
    match Base64.Decode(Base64.StandardAlphabet, secret)
    case Some(bytes) => Ok(bytes)
    case None =>
      match Base64.Decode(Base64.UrlAlphabet, secret)
      case Some(bytes) => Ok(bytes)
      case None => Err(SecretNotBase64)
  }

  /** The checks jwtSecretKey makes around a decoding of the secret. */
  function KeyOf(secret: Option<string>, decode: string -> Result<seq<Base64.Byte>, ConfigError>): (r: Result<Jwt.Key, ConfigError>)
    ensures secret.None? || IsBlank(secret.value) ==> r == Err(SecretMissing)
    ensures r.Ok? ==> |r.value| >= MinimumKeyBytes && decode(secret.value) == Ok(r.value)
    ensures secret.Some? && !IsBlank(secret.value) && decode(secret.value).Err? ==> r == Err(decode(secret.value).error)
    ensures secret.Some? && !IsBlank(secret.value) && decode(secret.value).Ok? ==>
      (r.Ok? <==> |decode(secret.value).value| >= MinimumKeyBytes) && (r.Err? ==> r.error == SecretTooShort)
  {
    if secret.None? || IsBlank(secret.value) then Err(SecretMissing)
    else
      match decode(secret.value)
      case Err(e) => Err(e)
      case Ok(bytes) => if |bytes| < MinimumKeyBytes then Err(SecretTooShort) else Ok(bytes)
  }

  /**
   * jwtSecretKey: a null or blank secret fails before decoding, a text the Base64 decoder rejects
   * aborts with its DecodingException, and a decoded key shorter than 32 bytes fails.
   */
  function JwtSecretKey(secret: Option<string>): (r: Result<Jwt.Key, ConfigError>)
    ensures secret.None? || IsBlank(secret.value) ==> r == Err(SecretMissing)
    ensures secret.Some? && !IsBlank(secret.value) && Base64.Decode(Base64.StandardAlphabet, secret.value).None? ==> r == Err(DecodingFailed)
    ensures r.Ok? ==> |r.value| >= MinimumKeyBytes && Base64.Decode(Base64.StandardAlphabet, secret.value) == Some(r.value)
    ensures secret.Some? && !IsBlank(secret.value) && Base64.Decode(Base64.StandardAlphabet, secret.value).Some? ==>
      (r.Ok? <==> |Base64.Decode(Base64.StandardAlphabet, secret.value).value| >= MinimumKeyBytes)
    ensures r != Err(SecretNotBase64)
  {
    KeyOf(secret, DecodeSecretAsWritten)
  }

  /** jwtSecretKey over the decoding with the Base64url fallback. */
  function JwtSecretKeyCorrected(secret: Option<string>): (r: Result<Jwt.Key, ConfigError>)
    ensures secret.None? || IsBlank(secret.value) ==> r == Err(SecretMissing)
    ensures r.Ok? ==> |r.value| >= MinimumKeyBytes && DecodeSecret(secret.value) == Ok(r.value)
    ensures secret.Some? && !IsBlank(secret.value) && DecodeSecret(secret.value).Err? ==> r == Err(SecretNotBase64)
    ensures secret.Some? && !IsBlank(secret.value) && DecodeSecret(secret.value).Ok? ==>
      (r.Ok? <==> |DecodeSecret(secret.value).value| >= MinimumKeyBytes)
    ensures r != Err(DecodingFailed)
  {
    KeyOf(secret, DecodeSecret)
  }

  /** Wherever the Base64 decoder accepts the secret, the two readings load the same key or fail alike. */
  lemma ReadingsAgreeOnBase64(secret: Option<string>)
    requires secret.Some? ==> Base64.Decode(Base64.StandardAlphabet, secret.value).Some?
    ensures JwtSecretKey(secret) == JwtSecretKeyCorrected(secret)
  {
  }

  /** An encoding of at least one byte is not blank: its first character is an alphabet letter or digit or symbol. */
  lemma EncodingNotBlank(alphabet: string, bytes: seq<Base64.Byte>)
    requires Base64.ValidAlphabet(alphabet) && alphabet == Base64.Alphabet(alphabet[62], alphabet[63])
    requires Base64.Symbol(alphabet[62]) && Base64.Symbol(alphabet[63])
    requires !IsSpace(alphabet[62]) && !IsSpace(alphabet[63])
    requires |bytes| > 0
    ensures !IsBlank(Base64.Encode(alphabet, bytes))
  {
    var s := Base64.Encode(alphabet, bytes);
    Base64.ToSextetsLength(bytes);
    var xs := Base64.ToSextets(bytes);
    assert s[0] == alphabet[xs[0]];
    assert !IsSpace(Base64.AlphabetChar(xs[0], alphabet[62], alphabet[63]));
  }

  /** A standard Base64 encoding of 32 or more bytes loads as exactly those bytes. */
  lemma StandardSecretLoads(bytes: seq<Base64.Byte>)
    requires |bytes| >= MinimumKeyBytes
    ensures JwtSecretKey(Some(Base64.Encode(Base64.StandardAlphabet, bytes))) == Ok(bytes)
    ensures JwtSecretKeyCorrected(Some(Base64.Encode(Base64.StandardAlphabet, bytes))) == Ok(bytes)
  {
    Base64.AlphabetsValid();
    Base64.RoundTrip(Base64.StandardAlphabet, bytes);
    EncodingNotBlank(Base64.StandardAlphabet, bytes);
  }

  /** Fewer than 32 bytes, however encoded, never load. */
  lemma ShortSecretRejected(bytes: seq<Base64.Byte>)
    requires 0 < |bytes| < MinimumKeyBytes
    ensures JwtSecretKey(Some(Base64.Encode(Base64.StandardAlphabet, bytes))) == Err(SecretTooShort)
    ensures JwtSecretKeyCorrected(Some(Base64.Encode(Base64.StandardAlphabet, bytes))) == Err(SecretTooShort)
  {
    Base64.AlphabetsValid();
    Base64.RoundTrip(Base64.StandardAlphabet, bytes);
    EncodingNotBlank(Base64.StandardAlphabet, bytes);
  }

  /**
   * A Base64url text that the standard decoder also accepts decodes to the same sextets:
   * the alphabets agree on their first 62 characters and '-' and '_' are not standard.
   */
  lemma {:induction false} UrlTextUnderStandard(ys: seq<Base64.Sextet>)
    requires Base64.Sextets(Base64.StandardAlphabet, Base64.Characters(Base64.UrlAlphabet, ys)).Some?
    ensures Base64.Sextets(Base64.StandardAlphabet, Base64.Characters(Base64.UrlAlphabet, ys)) == Some(ys)
    decreases |ys|
  {
    Base64.AlphabetsValid();
    if ys != [] {
      var s := Base64.Characters(Base64.UrlAlphabet, ys);
      var c := s[0];
      assert c == Base64.UrlAlphabet[ys[0]];
      var k := Base64.IndexIn(Base64.StandardAlphabet, c).value;
      assert Base64.StandardAlphabet[k] == c;
      assert Base64.AlphabetIndex(c, '+', '/') == k;
      assert Base64.AlphabetIndex(c, '-', '_') == ys[0];
      assert s[1..] == Base64.Characters(Base64.UrlAlphabet, ys[1..]);
      UrlTextUnderStandard(ys[1..]);
      assert ys == [ys[0]] + ys[1..];
    }
  }

  /** The standard decoder reads a Base64url encoding either not at all or as the same bytes. */
  lemma UrlEncodingUnderStandard(bytes: seq<Base64.Byte>)
    ensures var d := Base64.Decode(Base64.StandardAlphabet, Base64.Encode(Base64.UrlAlphabet, bytes));
      d.None? || d == Some(bytes)
  {
    Base64.AlphabetsValid();
    Base64.UnpadEncode(Base64.UrlAlphabet, bytes);
    var xs := Base64.ToSextets(bytes);
    if Base64.Sextets(Base64.StandardAlphabet, Base64.Characters(Base64.UrlAlphabet, xs)).Some? {
      UrlTextUnderStandard(xs);
      Base64.FromToSextets(bytes);
    }
  }

  /** With the fallback, a Base64url encoding of 32 or more bytes also loads as exactly those bytes. */
  lemma UrlSecretLoads(bytes: seq<Base64.Byte>)
    requires |bytes| >= MinimumKeyBytes
    ensures JwtSecretKeyCorrected(Some(Base64.Encode(Base64.UrlAlphabet, bytes))) == Ok(bytes)
  {
    Base64.AlphabetsValid();
    Base64.RoundTrip(Base64.UrlAlphabet, bytes);
    EncodingNotBlank(Base64.UrlAlphabet, bytes);
    UrlEncodingUnderStandard(bytes);
  }

  /** The Base64 decoder refuses every text holding a '-' or a '_', the two characters only Base64url uses. */
  lemma UrlCharacterRefused(s: string)
    requires '-' in s || '_' in s
    ensures Base64.Decode(Base64.StandardAlphabet, s).None?
  {
    Base64.AlphabetsValid();
    var body := Base64.Unpad(s);
    var k :| 0 <= k < |s| && (s[k] == '-' || s[k] == '_');
    assert k < |body|;
    assert body[k] == s[k];
    assert s[k] !in Base64.StandardAlphabet by {
      forall i | 0 <= i < 64 ensures Base64.StandardAlphabet[i] != s[k] {
        assert Base64.StandardAlphabet[i] == Base64.AlphabetChar(i, '+', '/');
      }
    }
    Base64.ForeignCharacterRejected(Base64.StandardAlphabet, s, k);
  }

  /**
   * As written, a Base64url secret of 32 or more bytes in which '-' or '_' occurs aborts startup
   * with the decoder's exception, though the fallback meant for it would load exactly its bytes.
   */
  lemma UrlSecretAbortsAsWritten(bytes: seq<Base64.Byte>)
    requires |bytes| >= MinimumKeyBytes
    requires '-' in Base64.Encode(Base64.UrlAlphabet, bytes) || '_' in Base64.Encode(Base64.UrlAlphabet, bytes)
    ensures JwtSecretKey(Some(Base64.Encode(Base64.UrlAlphabet, bytes))) == Err(DecodingFailed)
    ensures JwtSecretKeyCorrected(Some(Base64.Encode(Base64.UrlAlphabet, bytes))) == Ok(bytes)
  {
    Base64.AlphabetsValid();
    EncodingNotBlank(Base64.UrlAlphabet, bytes);
    UrlCharacterRefused(Base64.Encode(Base64.UrlAlphabet, bytes));
    UrlSecretLoads(bytes);
  }
}
