/**
 * encodeURIComponent as the layouts use it for the redirect parameter: every character outside the
 * unreserved set is written as the percent-escaped bytes of its UTF-8 form, with upper-case hex.
 * decodeURIComponent, its inverse, is defined on its own (section 19.2.6 of ECMA-262): each %XX
 * run is read as one UTF-8 sequence, and a malformed escape or sequence makes it throw.
 */
module Uri {
  import opened Wrappers
  import opened Text

  /** The characters encodeURIComponent leaves as they are. */
  predicate Unreserved(c: char) {
    ('A' <= c <= 'Z') || ('a' <= c <= 'z') || ('0' <= c <= '9') || c in "-_.!~*'()"
  }

  predicate AllUnreserved(s: string) {
    forall i :: 0 <= i < |s| ==> Unreserved(s[i])
  }

  predicate IsUpperHex(c: char) {
    IsDigit(c) || ('A' <= c <= 'F')
  }

  /** A character that can appear in encodeURIComponent's output. */
  predicate EncodedChar(c: char) {
    Unreserved(c) || c == '%' || IsUpperHex(c)
  }

  function HexDigit(d: nat): (c: char)
    requires d < 16
    ensures IsUpperHex(c)
  {
    if d < 10 then DigitChar(d) else ('A' as int + (d - 10)) as char
  }

  /** The UTF-8 bytes of one code point. */
  function Utf8(c: char): (bytes: seq<nat>)
    ensures 1 <= |bytes| <= 4
    ensures forall i :: 0 <= i < |bytes| ==> bytes[i] < 256
    ensures (c as int) < 0x80 ==> bytes == [c as int]
  {
    var n := c as int;
    if n < 0x80 then [n]
    else if n < 0x800 then [0xC0 + n / 64, 0x80 + n % 64]
    else if n < 0x1_0000 then [0xE0 + n / 4096, 0x80 + (n / 64) % 64, 0x80 + n % 64]
    else [0xF0 + n / 262144, 0x80 + (n / 4096) % 64, 0x80 + (n / 64) % 64, 0x80 + n % 64]
  }

  /** %XX for each byte. */
  function PercentBytes(bytes: seq<nat>): (r: string)
    requires forall i :: 0 <= i < |bytes| ==> bytes[i] < 256
    ensures |r| == 3 * |bytes|
    ensures forall i :: 0 <= i < |r| ==> EncodedChar(r[i])
    ensures |bytes| > 0 ==> r[0] == '%'
  {
    if bytes == [] then ""
    else ['%', HexDigit(bytes[0] / 16), HexDigit(bytes[0] % 16)] + PercentBytes(bytes[1..])
  }

  function EncodeChar(c: char): (r: string)
    ensures Unreserved(c) ==> r == [c]
    ensures !Unreserved(c) ==> |r| >= 3 && r[0] == '%'
    ensures forall i :: 0 <= i < |r| ==> EncodedChar(r[i])
  {
    if Unreserved(c) then [c] else PercentBytes(Utf8(c))
  }

  /**
   * encodeURIComponent: the output uses only unreserved characters, '%' and hex digits, so it can
   * never end a query parameter; it is the input exactly when the input needs no escaping.
   */
  function EncodeUriComponent(s: string): (r: string)
    ensures forall i :: 0 <= i < |r| ==> EncodedChar(r[i])
    ensures |r| >= |s|
    ensures !AllUnreserved(s) ==> |r| >= |s| + 2
    ensures AllUnreserved(s) ==> r == s
  {
    if s == [] then ""
    else
      var head, tail := EncodeChar(s[0]), EncodeUriComponent(s[1..]);
      assert !AllUnreserved(s) && Unreserved(s[0]) ==> !AllUnreserved(s[1..]) by {
        if !AllUnreserved(s) && Unreserved(s[0]) {
          var i :| 0 <= i < |s| && !Unreserved(s[i]);
          assert s[1..][i - 1] == s[i];
        }
      }
      head + tail
  }

  /** The output is the input exactly when every character is unreserved. */
  lemma EncodeIsIdentityExactly(s: string)
    ensures EncodeUriComponent(s) == s <==> AllUnreserved(s)
  {
  }

  /** The separators of a query string never survive encoding. */
  lemma EncodedHasNoSeparators(s: string)
    ensures '&' !in EncodeUriComponent(s) && '#' !in EncodeUriComponent(s) && '=' !in EncodeUriComponent(s)
    ensures '/' !in EncodeUriComponent(s) && '?' !in EncodeUriComponent(s)
  {
    NotEncoded(s, '&');
    NotEncoded(s, '#');
    NotEncoded(s, '=');
    NotEncoded(s, '/');
    NotEncoded(s, '?');
  }

  lemma NotEncoded(s: string, c: char)
    requires !EncodedChar(c)
    ensures c !in EncodeUriComponent(s)
  {
  }

  lemma EncodeSlash()
    ensures EncodeUriComponent("/") == "%2F"
  {
    assert !Unreserved('/');
    assert Utf8('/') == [47];
    assert PercentBytes([47]) == ['%', HexDigit(2), HexDigit(15)] + PercentBytes([]);
  }

  /** The value of a hex digit in either case. */
  function HexValue(c: char): (r: Option<nat>)
    ensures r.Some? ==> r.value < 16
  {
    if IsDigit(c) then Some(c as int - '0' as int)
    else if 'A' <= c <= 'F' then Some(c as int - 'A' as int + 10)
    else if 'a' <= c <= 'f' then Some(c as int - 'a' as int + 10)
    else None
  }

  lemma HexValueOfDigit(d: nat)
    requires d < 16
    ensures HexValue(HexDigit(d)) == Some(d)
  {
  }

  /** The byte of a %XX at the start of the text. */
  function EscapedByte(s: string): (r: Option<nat>)
    ensures r.Some? ==> |s| >= 3 && s[0] == '%' && r.value < 256
  {
    if |s| >= 3 && s[0] == '%' then
      match (HexValue(s[1]), HexValue(s[2]))
      case (Some(h), Some(l)) => Some(16 * h + l)
      case _ => None
    else None
  }

  /** The bytes of k consecutive %XX escapes at the start of the text. */
  function EscapedBytes(s: string, k: nat): (r: Option<seq<nat>>)
    ensures r.Some? ==> |r.value| == k && 3 * k <= |s| && forall i :: 0 <= i < k ==> r.value[i] < 256
    decreases k
  {
    if k == 0 then Some([])
    else match EscapedByte(s)
      case None => None
      case Some(b) =>
        match EscapedBytes(s[3..], k - 1)
        case None => None
        case Some(rest) => Some([b] + rest)
  }

  /**
   * The length of the UTF-8 sequence a byte starts: 1 for ASCII, 2 to 4 after as many leading one
   * bits, and 0 for a continuation byte or one of five or more leading one bits.
   */
  function SequenceLength(lead: nat): (n: nat)
    ensures n <= 4
  {
    if lead < 0x80 then 1
    else if lead < 0xC0 then 0
    else if lead < 0xE0 then 2
    else if lead < 0xF0 then 3
    else if lead < 0xF8 then 4
    else 0
  }

  predicate IsContinuation(b: nat) {
    0x80 <= b < 0xC0
  }

  /**
   * The character a UTF-8 sequence denotes, or nothing for a wrong length, a byte that is not a
   * continuation, an overlong form, a surrogate or a value beyond U+10FFFF.
   */
  function Utf8Scalar(bytes: seq<nat>): (r: Option<char>)
    ensures r.Some? ==> 1 <= |bytes| <= 4 && SequenceLength(bytes[0]) == |bytes|
    ensures r.Some? ==> forall i :: 1 <= i < |bytes| ==> IsContinuation(bytes[i])
  {
    if |bytes| == 0 || SequenceLength(bytes[0]) != |bytes| then None
    else if !(forall i :: 1 <= i < |bytes| ==> IsContinuation(bytes[i])) then None
    else
      var n := |bytes|;
      var cp :=
        if n == 1 then bytes[0]
        else if n == 2 then (bytes[0] - 0xC0) * 64 + (bytes[1] - 0x80)
        else if n == 3 then ((bytes[0] - 0xE0) * 64 + (bytes[1] - 0x80)) * 64 + (bytes[2] - 0x80)
        else (((bytes[0] - 0xF0) * 64 + (bytes[1] - 0x80)) * 64 + (bytes[2] - 0x80)) * 64 + (bytes[3] - 0x80);
      var least := if n == 1 then 0 else if n == 2 then 0x80 else if n == 3 then 0x800 else 0x1_0000;
      if least <= cp <= 0x10_FFFF && !(0xD800 <= cp < 0xE000) then Some(cp as char) else None
  }

  function Prepend(c: char, r: Option<string>): Option<string> {
    match r
    case None => None
    case Some(t) => Some([c] + t)
  }

  /**
   * decodeURIComponent: characters other than '%' are kept; a '%' starts escapes for one UTF-8
   * sequence, whose length the first byte gives. Nothing where decodeURIComponent throws.
   */
  function DecodeUriComponent(s: string): (r: Option<string>)
    ensures r.Some? ==> |r.value| <= |s|
    ensures r.Some? && '%' !in s ==> r.value == s
    decreases |s|
  {
    if s == [] then Some([])
    else if s[0] != '%' then Prepend(s[0], DecodeUriComponent(s[1..]))
    else match EscapedByte(s)
      case None => None
      case Some(lead) =>
        var n := SequenceLength(lead);
        if n == 0 then None
        else match EscapedBytes(s, n)
          case None => None
          case Some(bytes) =>
            match Utf8Scalar(bytes)
            case None => None
            case Some(c) => Prepend(c, DecodeUriComponent(s[3 * n..]))
  }

  /** Escapes written for a run of bytes are read back as those bytes, and leave what follows. */
  lemma {:induction false} EscapedBytesOfPercent(bytes: seq<nat>, rest: string)
    requires forall i :: 0 <= i < |bytes| ==> bytes[i] < 256
    ensures EscapedBytes(PercentBytes(bytes) + rest, |bytes|) == Some(bytes)
    ensures (PercentBytes(bytes) + rest)[3 * |bytes|..] == rest
    decreases |bytes|
  {
    if bytes != [] {
      var b := bytes[0];
      var s := PercentBytes(bytes) + rest;
      var tail := PercentBytes(bytes[1..]) + rest;
      assert s == ['%', HexDigit(b / 16), HexDigit(b % 16)] + tail;
      HexValueOfDigit(b / 16);
      HexValueOfDigit(b % 16);
      assert EscapedByte(s) == Some(b);
      assert s[3..] == tail;
      EscapedBytesOfPercent(bytes[1..], rest);
      assert [b] + bytes[1..] == bytes;
    }
  }

  /** Reading the UTF-8 form of a character back gives the character. */
  lemma Utf8RoundTrip(c: char)
    ensures SequenceLength(Utf8(c)[0]) == |Utf8(c)|
    ensures Utf8Scalar(Utf8(c)) == Some(c)
  {
    var n := c as int;
    if n < 0x80 {
    } else if n < 0x800 {
      Utf8Two(n);
    } else if n < 0x1_0000 {
      Utf8Three(n);
    } else {
      Utf8Four(n);
    }
  }

  lemma Utf8Two(n: nat)
    requires 0x80 <= n < 0x800
    ensures SequenceLength(0xC0 + n / 64) == 2 && IsContinuation(0x80 + n % 64)
    ensures (n / 64) * 64 + n % 64 == n
  {
  }

  lemma Utf8Three(n: nat)
    requires 0x800 <= n < 0x1_0000
    ensures SequenceLength(0xE0 + n / 4096) == 3
    ensures IsContinuation(0x80 + (n / 64) % 64) && IsContinuation(0x80 + n % 64)
    ensures ((n / 4096) * 64 + (n / 64) % 64) * 64 + n % 64 == n
  {
    DivDiv(n, 64, 64);
  }

  lemma Utf8Four(n: nat)
    requires 0x1_0000 <= n < 0x11_0000
    ensures SequenceLength(0xF0 + n / 262144) == 4
    ensures IsContinuation(0x80 + (n / 4096) % 64) && IsContinuation(0x80 + (n / 64) % 64) && IsContinuation(0x80 + n % 64)
    ensures (((n / 262144) * 64 + (n / 4096) % 64) * 64 + (n / 64) % 64) * 64 + n % 64 == n
  {
    DivDiv(n, 64, 64);
    DivDiv(n, 4096, 64);
  }

  /** n / a / b == n / (a * b), and the digit split it gives. */
  lemma DivDiv(n: nat, a: nat, b: nat)
    requires a > 0 && b > 0
    ensures (n / a) / b == n / (a * b)
    ensures (n / (a * b)) * b + (n / a) % b == n / a
  {
    var q, r := n / a, n % a;
    var q2, r2 := q / b, q % b;
    Regroup(q2, r2, a, b, r);
    RemainderBelow(r2, r, a, b);
    DivUnique(n, a * b, q2, r2 * a + r);
  }

  lemma Regroup(q2: int, r2: int, a: int, b: int, r: int)
    ensures (q2 * b + r2) * a + r == q2 * (a * b) + (r2 * a + r)
  {
    calc {
      (q2 * b + r2) * a + r;
      q2 * b * a + r2 * a + r;
      q2 * (a * b) + (r2 * a + r);
    }
  }

  lemma RemainderBelow(r2: nat, r: nat, a: nat, b: nat)
    requires r2 < b && r < a
    ensures r2 * a + r < a * b
  {
    assert r2 * a <= (b - 1) * a by {
      MultiplyMonotone(r2, b - 1, a);
    }
    assert (b - 1) * a == a * b - a;
  }

  lemma MultiplyMonotone(x: nat, y: nat, a: nat)
    requires x <= y
    ensures x * a <= y * a
  {
    assert y * a == x * a + (y - x) * a;
  }

  lemma DivUnique(n: int, d: int, q: int, r: int)
    requires d > 0 && 0 <= r < d && n == q * d + r
    ensures n / d == q && n % d == r
  {
    var q0, r0 := n / d, n % d;
    assert (q - q0) * d == r0 - r by {
      assert q * d + r == q0 * d + r0;
      assert (q - q0) * d == q * d - q0 * d;
    }
    if q > q0 {
      MultiplyAtLeast(q - q0, d);
    } else if q < q0 {
      MultiplyAtLeast(q0 - q, d);
    }
  }

  lemma MultiplyAtLeast(k: int, d: int)
    requires k >= 1 && d > 0
    ensures k * d >= d
  {
    assert k * d == (k - 1) * d + d;
  }

  /** decodeURIComponent reads one character's escapes back to the character and goes on with the rest. */
  lemma DecodeEncodedChar(c: char, rest: string)
    ensures DecodeUriComponent(EncodeChar(c) + rest) == Prepend(c, DecodeUriComponent(rest))
  {
    if Unreserved(c) {
      assert ([c] + rest)[0] == c && ([c] + rest)[1..] == rest;
    } else {
      var bytes := Utf8(c);
      var s := PercentBytes(bytes) + rest;
      EscapedBytesOfPercent(bytes, rest);
      Utf8RoundTrip(c);
      assert EscapedByte(s) == Some(bytes[0]);
    }
  }

  /** decodeURIComponent undoes encodeURIComponent on every text. */
  lemma {:induction false} DecodeEncode(s: string)
    ensures DecodeUriComponent(EncodeUriComponent(s)) == Some(s)
    decreases |s|
  {
    if s != [] {
      DecodeEncodedChar(s[0], EncodeUriComponent(s[1..]));
      DecodeEncode(s[1..]);
      assert [s[0]] + s[1..] == s;
    }
  }
}
