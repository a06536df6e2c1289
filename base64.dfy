/**
 * Base64 text codecs of RFC 4648: the standard alphabet of section 4 and the URL- and
 * filename-safe alphabet of section 5. Decoding accepts a final quantum with or without
 * its '=' padding and rejects every character outside the alphabet.
 */
module Base64 {
  import opened Wrappers

  type Byte = b: int | 0 <= b < 256

  /** 'A'-'Z', 'a'-'z', '0'-'9' and then the two characters in which the alphabets differ. */
  function AlphabetChar(i: nat, c62: char, c63: char): char
    requires i < 64
  {
    if i < 26 then ('A' as int + i) as char
    else if i < 52 then ('a' as int + i - 26) as char
    else if i < 62 then ('0' as int + i - 52) as char
    else if i == 62 then c62
    else c63
  }

  function Alphabet(c62: char, c63: char): string {
    seq(64, i requires 0 <= i < 64 => AlphabetChar(i, c62, c63))
  }

  /** Section 4: "A".."Z", "a".."z", "0".."9", "+", "/". */
  const StandardAlphabet: string := Alphabet('+', '/')
  /** Section 5: as section 4 but "-" and "_" for the last two. */
  const UrlAlphabet: string := Alphabet('-', '_')

  /** An alphabet of 64 distinct characters, none of them the pad character. */
  predicate ValidAlphabet(alphabet: string) {
    |alphabet| == 64 && '=' !in alphabet
    && forall i, j :: 0 <= i < j < 64 ==> alphabet[i] != alphabet[j]
  }

  /** Inverse of AlphabetChar for the digits, letters and two symbols that are not among them. */
  function AlphabetIndex(c: char, c62: char, c63: char): int {
    if 'A' <= c <= 'Z' then c as int - 'A' as int
    else if 'a' <= c <= 'z' then c as int - 'a' as int + 26
    else if '0' <= c <= '9' then c as int - '0' as int + 52
    else if c == c62 then 62
    else if c == c63 then 63
    else -1
  }

  predicate Symbol(c: char) {
    !('A' <= c <= 'Z') && !('a' <= c <= 'z') && !('0' <= c <= '9') && c != '='
  }

  lemma AlphabetValid(c62: char, c63: char)
    requires Symbol(c62) && Symbol(c63) && c62 != c63
    ensures ValidAlphabet(Alphabet(c62, c63))
  {
    var a := Alphabet(c62, c63);
    forall i | 0 <= i < 64 ensures AlphabetIndex(a[i], c62, c63) == i && a[i] != '=' {
    }
  }

  lemma AlphabetsValid()
    ensures ValidAlphabet(StandardAlphabet) && ValidAlphabet(UrlAlphabet)
  {
    AlphabetValid('+', '/');
    AlphabetValid('-', '_');
  }

  /** Position of c in the alphabet. */
  function IndexIn(alphabet: string, c: char): (r: Option<nat>)
    ensures r.Some? ==> r.value < |alphabet| && alphabet[r.value] == c
    ensures r.None? ==> c !in alphabet
  {
    if |alphabet| == 0 then None
    else if alphabet[0] == c then Some(0)
    else match IndexIn(alphabet[1..], c)
      case None => None
      case Some(k) => Some(k + 1)
  }

  lemma IndexInAt(alphabet: string, k: nat)
    requires k < |alphabet|
    requires forall i, j :: 0 <= i < j < |alphabet| ==> alphabet[i] != alphabet[j]
    ensures IndexIn(alphabet, alphabet[k]) == Some(k)
  {
    if k > 0 {
      assert alphabet[1..][k - 1] == alphabet[k];
      IndexInAt(alphabet[1..], k - 1);
    }
  }

  type Sextet = s: int | 0 <= s < 64

  /** The sextet value of every character, or None if one is outside the alphabet. */
  function Sextets(alphabet: string, s: string): (r: Option<seq<Sextet>>)
    requires |alphabet| == 64
    ensures r.Some? ==> |r.value| == |s|
  {
    if s == [] then Some([])
    else match IndexIn(alphabet, s[0])
      case None => None
      case Some(k) =>
        match Sextets(alphabet, s[1..])
        case None => None
        case Some(rest) => Some([k as Sextet] + rest)
  }

  /** Sextets fails exactly when some character is outside the alphabet, and otherwise gives each character's position. */
  lemma {:induction false} SextetsExactly(alphabet: string, s: string)
    requires |alphabet| == 64
    ensures Sextets(alphabet, s).None? <==> exists i :: 0 <= i < |s| && s[i] !in alphabet
    ensures Sextets(alphabet, s).Some? ==> forall i :: 0 <= i < |s| ==> alphabet[Sextets(alphabet, s).value[i]] == s[i]
    decreases |s|
  {
    if s != [] {
      SextetsExactly(alphabet, s[1..]);
      assert forall i :: 0 < i < |s| ==> s[1..][i - 1] == s[i];
    }
  }

  /** Bytes of a run of sextets; a final group of two or three sextets yields one or two bytes. */
  function FromSextets(xs: seq<Sextet>): (r: seq<Byte>)
    decreases |xs|
  {
    if |xs| < 2 then []
    else
      var b0: Byte := xs[0] as int * 4 + xs[1] as int / 16;
      if |xs| == 2 then [b0]
      else
        var b1: Byte := (xs[1] as int % 16) * 16 + xs[2] as int / 4;
        if |xs| == 3 then [b0, b1]
        else
          var b2: Byte := (xs[2] as int % 4) * 64 + xs[3] as int;
          [b0, b1, b2] + FromSextets(xs[4..])
  }

  /** s with one or two trailing pad characters removed. */
  function Unpad(s: string): (r: string)
    ensures |r| <= |s| && r == s[..|r|]
  {
    if |s| >= 2 && s[|s| - 2] == '=' && s[|s| - 1] == '=' then s[..|s| - 2]
    else if |s| >= 1 && s[|s| - 1] == '=' then s[..|s| - 1]
    else s
  }

  /**
   * Decoding: padding may only complete a final four-character quantum, a lone character
   * cannot encode a byte, and every remaining character must belong to the alphabet.
   */
  function Decode(alphabet: string, s: string): (r: Option<seq<Byte>>)
    requires |alphabet| == 64
    ensures r.Some? ==> |s| % 4 != 1 && exists xs :: Sextets(alphabet, Unpad(s)) == Some(xs) && r.value == FromSextets(xs)
  {
    var body := Unpad(s);
    if (|body| < |s| && |s| % 4 != 0) || |body| % 4 == 1 then None
    else match Sextets(alphabet, body)
      case None => None
      case Some(xs) => Some(FromSextets(xs))
  }

  /** Decode accepts exactly the inputs whose padding and length are well formed and whose body is all alphabet. */
  lemma DecodeAccepts(alphabet: string, s: string)
    requires |alphabet| == 64
    ensures Decode(alphabet, s).Some? <==>
      !((|Unpad(s)| < |s| && |s| % 4 != 0) || |Unpad(s)| % 4 == 1) && forall i :: 0 <= i < |Unpad(s)| ==> Unpad(s)[i] in alphabet
  {
    SextetsExactly(alphabet, Unpad(s));
  }

  /** One character outside the alphabet, anywhere before the padding, makes decoding fail. */
  lemma ForeignCharacterRejected(alphabet: string, s: string, k: nat)
    requires |alphabet| == 64
    requires k < |Unpad(s)| && s[k] !in alphabet
    ensures Decode(alphabet, s).None?
  {
    DecodeAccepts(alphabet, s);
    assert Unpad(s)[k] == s[k];
  }

  /** Sextets of a run of bytes; a final group of one or two bytes yields two or three sextets. */
  function ToSextets(bs: seq<Byte>): (r: seq<Sextet>)
    ensures |r| % 4 != 1
    decreases |bs|
  {
    if |bs| == 0 then []
    else
      var s0: Sextet := bs[0] / 4;
      if |bs| == 1 then [s0, (bs[0] % 4) * 16]
      else
        var s1: Sextet := (bs[0] % 4) * 16 + bs[1] / 16;
        if |bs| == 2 then [s0, s1, (bs[1] % 16) * 4]
        else
          var s2: Sextet := (bs[1] % 16) * 4 + bs[2] / 64;
          var s3: Sextet := bs[2] % 64;
          [s0, s1, s2, s3] + ToSextets(bs[3..])
  }

  function Characters(alphabet: string, xs: seq<Sextet>): (r: string)
    requires |alphabet| == 64
    ensures |r| == |xs|
    ensures forall i :: 0 <= i < |r| ==> r[i] == alphabet[xs[i]]
  {
    seq(|xs|, i requires 0 <= i < |xs| => alphabet[xs[i]])
  }

  function Padding(n: nat): string {
    if n % 3 == 1 then "==" else if n % 3 == 2 then "=" else ""
  }

  /** Canonical padded encoding. */
  function Encode(alphabet: string, bs: seq<Byte>): (r: string)
    requires |alphabet| == 64
    ensures |r| % 4 == 0
  {
    ToSextetsLength(bs);
    Characters(alphabet, ToSextets(bs)) + Padding(|bs|)
  }

  lemma {:induction false} ToSextetsLength(bs: seq<Byte>)
    ensures |ToSextets(bs)| == 4 * (|bs| / 3) + (if |bs| % 3 == 0 then 0 else |bs| % 3 + 1)
    decreases |bs|
  {
    if |bs| >= 3 {
      ToSextetsLength(bs[3..]);
    }
  }

  lemma {:induction false} FromToSextets(bs: seq<Byte>)
    ensures FromSextets(ToSextets(bs)) == bs
    decreases |bs|
  {
    if |bs| >= 3 {
      var xs := ToSextets(bs);
      assert xs[4..] == ToSextets(bs[3..]);
      FromToSextets(bs[3..]);
      assert bs == bs[..3] + bs[3..];
    }
  }

  lemma {:induction false} SextetsOfCharacters(alphabet: string, xs: seq<Sextet>)
    requires ValidAlphabet(alphabet)
    ensures Sextets(alphabet, Characters(alphabet, xs)) == Some(xs)
    decreases |xs|
  {
    if xs != [] {
      var s := Characters(alphabet, xs);
      IndexInAt(alphabet, xs[0]);
      assert s[1..] == Characters(alphabet, xs[1..]);
      SextetsOfCharacters(alphabet, xs[1..]);
      assert xs == [xs[0]] + xs[1..];
    }
  }

  /** Removing the padding of an encoding leaves exactly its alphabet characters, and the length checks pass. */
  lemma UnpadEncode(alphabet: string, bs: seq<Byte>)
    requires ValidAlphabet(alphabet)
    ensures Unpad(Encode(alphabet, bs)) == Characters(alphabet, ToSextets(bs))
    ensures |Characters(alphabet, ToSextets(bs))| % 4 != 1
  {
    var xs := ToSextets(bs);
    var body := Characters(alphabet, xs);
    var s := Encode(alphabet, bs);
    ToSextetsLength(bs);
    assert s == body + Padding(|bs|);
    assert forall i :: 0 <= i < |body| ==> body[i] != '=' by {
      forall i | 0 <= i < |body| ensures body[i] != '=' {
        assert body[i] == alphabet[xs[i]];
      }
    }
  }

  /** Decoding the encoding of any byte string gives the bytes back. */
  lemma RoundTrip(alphabet: string, bs: seq<Byte>)
    requires ValidAlphabet(alphabet)
    ensures Decode(alphabet, Encode(alphabet, bs)) == Some(bs)
  {
    UnpadEncode(alphabet, bs);
    SextetsOfCharacters(alphabet, ToSextets(bs));
    FromToSextets(bs);
  }
}
