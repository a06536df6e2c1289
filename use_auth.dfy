/**
 * The browser side of authentication: reading the expiry out of a JWT without checking it, the
 * token kept in localStorage across reloads, the session state the provider holds, and where the
 * user is sent after logging in or out. atob is the forgiving-base64 decode of the HTML standard
 * over the standard alphabet, giving one character per byte; JSON.parse is a parameter that may fail.
 */
module UseAuth {
  import opened Wrappers
  import opened Text
  import opened Json
  import Base64
  import opened LocalStorage

  /** The base64url alphabet of section 5 of RFC 4648 turned into the standard one of section 4. */
  function Normalized(input: string): (r: string)
    ensures |r| == |input|
    ensures forall i :: 0 <= i < |input| ==> r[i] == (if input[i] == '-' then '+' else if input[i] == '_' then '/' else input[i])
  {
    ReplaceChar(ReplaceChar(input, '-', '+'), '_', '/')
  }

  /** (4 - ((length % 4) || 4)) % 4: the pad characters that make the length a multiple of four. */
  function PaddingNeeded(length: nat): (r: nat)
    ensures r < 4 && (length + r) % 4 == 0
  {
    var m := length % 4;
    (4 - (if m == 0 then 4 else m)) % 4
  }

  /** The padding count is the only one below four that completes a quantum. */
  lemma PaddingNeededUnique(length: nat, k: nat)
    requires k < 4 && (length + k) % 4 == 0
    ensures k == PaddingNeeded(length)
  {
  }

  function Pad(k: nat): (r: string)
    ensures |r| == k && forall i :: 0 <= i < k ==> r[i] == '='
  {
    seq(k, i => '=')
  }

  /** The characters of atob's result: one per decoded byte. */
  function BinaryString(bytes: seq<Base64.Byte>): (r: string)
    ensures |r| == |bytes| && forall i :: 0 <= i < |r| ==> r[i] as int == bytes[i]
  {
    seq(|bytes|, i requires 0 <= i < |bytes| => bytes[i] as char)
  }

  /** The ASCII whitespace of the HTML standard: tab, line feed, form feed, carriage return and space. */
  predicate IsAsciiWhitespace(c: char) {
    c == '\t' || c == '\n' || c == '\U{000C}' || c == '\r' || c == ' '
  }

  predicate NoWhitespace(s: string) {
    forall i :: 0 <= i < |s| ==> !IsAsciiWhitespace(s[i])
  }

  /** The text with its ASCII whitespace removed, the other characters kept in order. */
  function WithoutWhitespace(s: string): (r: string)
    ensures |r| <= |s|
  {
    if s == [] then []
    else
      var rest := WithoutWhitespace(s[1..]);
      assert NoWhitespace(s) ==> NoWhitespace(s[1..]) by {
        if NoWhitespace(s) {
          forall i | 0 <= i < |s[1..]| ensures !IsAsciiWhitespace(s[1..][i]) {
            assert s[1..][i] == s[i + 1];
          }
        }
      }
      (if IsAsciiWhitespace(s[0]) then [] else [s[0]]) + rest
  }

  /**
   * atob: the forgiving-base64 decode, which removes ASCII whitespace and then decodes as
   * Base64.Decode does (trailing padding only on a complete quantum, never a lone character);
   * None where atob throws.
   */
  function Atob(data: string): (r: Option<string>)
    ensures r.Some? <==> Base64.Decode(Base64.StandardAlphabet, WithoutWhitespace(data)).Some?
    ensures r.Some? ==> r.value == BinaryString(Base64.Decode(Base64.StandardAlphabet, WithoutWhitespace(data)).value)
  {
    match Base64.Decode(Base64.StandardAlphabet, WithoutWhitespace(data))
    case None => None
    case Some(bytes) => Some(BinaryString(bytes))
  }

  /** Whitespace anywhere in the text changes nothing for atob. */
  lemma AtobIgnoresWhitespace(a: string, b: string, w: string)
    requires |w| > 0 && forall i :: 0 <= i < |w| ==> IsAsciiWhitespace(w[i])
    ensures Atob(a + w + b) == Atob(a + b)
  {
    WhitespaceRunRemoved(a, b, w);
  }

  lemma WhitespaceRunRemoved(a: string, b: string, w: string)
    requires forall i :: 0 <= i < |w| ==> IsAsciiWhitespace(w[i])
    ensures WithoutWhitespace(a + w + b) == WithoutWhitespace(a + b)
  {
    WithoutWhitespaceAppend(a, w);
    AllWhitespaceRemoved(w);
    var wa := WithoutWhitespace(a);
    assert WithoutWhitespace(a + w) == wa by {
      assert wa + [] == wa;
    }
    WithoutWhitespaceAppend(a + w, b);
    WithoutWhitespaceAppend(a, b);
  }

  lemma {:induction false} NoWhitespaceKept(s: string)
    requires NoWhitespace(s)
    ensures WithoutWhitespace(s) == s
    decreases |s|
  {
    if s != [] {
      assert s[1..][0..] == s[1..];
      assert forall i :: 0 <= i < |s[1..]| ==> s[1..][i] == s[i + 1];
      NoWhitespaceKept(s[1..]);
      assert [s[0]] + s[1..] == s;
    }
  }

  lemma {:induction false} WithoutWhitespaceAppend(a: string, b: string)
    ensures WithoutWhitespace(a + b) == WithoutWhitespace(a) + WithoutWhitespace(b)
    decreases |a|
  {
    if a == [] {
      assert a + b == b;
    } else {
      var h := if IsAsciiWhitespace(a[0]) then [] else [a[0]];
      assert (a + b)[0] == a[0] && (a + b)[1..] == a[1..] + b;
      assert WithoutWhitespace(a + b) == h + WithoutWhitespace(a[1..] + b);
      assert WithoutWhitespace(a) == h + WithoutWhitespace(a[1..]);
      WithoutWhitespaceAppend(a[1..], b);
      assert h + (WithoutWhitespace(a[1..]) + WithoutWhitespace(b)) == (h + WithoutWhitespace(a[1..])) + WithoutWhitespace(b);
    }
  }

  lemma {:induction false} AllWhitespaceRemoved(w: string)
    requires forall i :: 0 <= i < |w| ==> IsAsciiWhitespace(w[i])
    ensures WithoutWhitespace(w) == []
    decreases |w|
  {
    if w != [] {
      assert forall i :: 0 <= i < |w[1..]| ==> w[1..][i] == w[i + 1];
      AllWhitespaceRemoved(w[1..]);
    }
  }

  /** decodeBase64Url: normalize the alphabet, pad to the length of the normalised text, and atob. */
  function DecodeBase64Url(input: string): (r: Option<string>)
    ensures r == Atob(Normalized(input) + Pad(PaddingNeeded(|input|)))
  {
    var normalized := Normalized(input);
    Atob(normalized + Pad(PaddingNeeded(|normalized|)))
  }

  /** A JWT segment: base64url without padding, as section 2 of RFC 7515 writes it. */
  function Segment(bytes: seq<Base64.Byte>): string {
    Base64.Characters(Base64.UrlAlphabet, Base64.ToSextets(bytes))
  }

  lemma NormalizedSegment(bytes: seq<Base64.Byte>)
    ensures Normalized(Segment(bytes)) == Base64.Characters(Base64.StandardAlphabet, Base64.ToSextets(bytes))
  {
    var xs := Base64.ToSextets(bytes);
    var url, std := Segment(bytes), Base64.Characters(Base64.StandardAlphabet, xs);
    forall i | 0 <= i < |url| ensures Normalized(url)[i] == std[i] {
      assert url[i] == Base64.AlphabetChar(xs[i], '-', '_');
      assert std[i] == Base64.AlphabetChar(xs[i], '+', '/');
    }
  }

  lemma PaddedSegment(bytes: seq<Base64.Byte>)
    ensures Normalized(Segment(bytes)) + Pad(PaddingNeeded(|Segment(bytes)|)) == Base64.Encode(Base64.StandardAlphabet, bytes)
  {
    NormalizedSegment(bytes);
    Base64.ToSextetsLength(bytes);
    var n := |bytes|;
    assert |Segment(bytes)| == 4 * (n / 3) + (if n % 3 == 0 then 0 else n % 3 + 1);
    assert Pad(PaddingNeeded(|Segment(bytes)|)) == Base64.Padding(n);
  }

  /** Every unpadded base64url segment decodes to the bytes it encodes. */
  lemma DecodeSegment(bytes: seq<Base64.Byte>)
    ensures DecodeBase64Url(Segment(bytes)) == Some(BinaryString(bytes))
  {
    PaddedSegment(bytes);
    Base64.AlphabetsValid();
    Base64.RoundTrip(Base64.StandardAlphabet, bytes);
    EncodingHasNoWhitespace(bytes);
    NoWhitespaceKept(Base64.Encode(Base64.StandardAlphabet, bytes));
  }

  /** A standard encoding is alphabet characters and padding, none of them whitespace. */
  lemma EncodingHasNoWhitespace(bytes: seq<Base64.Byte>)
    ensures NoWhitespace(Base64.Encode(Base64.StandardAlphabet, bytes))
  {
    Base64.AlphabetsValid();
    var xs := Base64.ToSextets(bytes);
    var body := Base64.Characters(Base64.StandardAlphabet, xs);
    var e := Base64.Encode(Base64.StandardAlphabet, bytes);
    Base64.ToSextetsLength(bytes);
    assert e == body + Base64.Padding(|bytes|);
    forall i | 0 <= i < |e| ensures !IsAsciiWhitespace(e[i]) {
      if i < |body| {
        assert e[i] == Base64.StandardAlphabet[xs[i]] == Base64.AlphabetChar(xs[i], '+', '/');
      } else {
        assert e[i] == '=';
      }
    }
  }

  /** parseJwt: the second '.'-separated segment decoded and parsed; None when any step fails. */
  function ParseJwt(token: string, parse: string -> Option<JsonValue>): (r: Option<JsonValue>)
    ensures |Split(token, '.')| < 2 ==> r.None?
    ensures |Split(token, '.')| >= 2 && DecodeBase64Url(Split(token, '.')[1]).None? ==> r.None?
    ensures |Split(token, '.')| >= 2 && DecodeBase64Url(Split(token, '.')[1]).Some? ==>
              r == parse(DecodeBase64Url(Split(token, '.')[1]).value)
  {
    var parts := Split(token, '.');
    if |parts| < 2 then None
    else match DecodeBase64Url(parts[1])
      case None => None
      case Some(payload) => parse(payload)
  }

  /** extractExpiration: exp in milliseconds when the payload has a non-zero number exp. */
  function ExtractExpiration(token: string, parse: string -> Option<JsonValue>): (r: Option<int>)
    ensures r.Some? <==> exists n :: ParseJwt(token, parse).Some? && Get(ParseJwt(token, parse).value, "exp") == Some(JNumber(n)) && n != 0
    ensures r.Some? ==> Get(ParseJwt(token, parse).value, "exp") == Some(JNumber(r.value / 1000)) && r.value % 1000 == 0 && r.value != 0
  {
    match ParseJwt(token, parse)
    case None => None
    case Some(payload) =>
      match Get(payload, "exp")
      case Some(JNumber(n)) => if n != 0 then Some(n * 1000) else None
      case _ => None
  }

  /**
   * A token header.payload.signature whose payload segment encodes a JSON object with a non-zero exp
   * expires at exp seconds, in milliseconds.
   */
  lemma ExpirationOfToken(header: string, payload: seq<Base64.Byte>, signature: string, parse: string -> Option<JsonValue>,
                          fields: seq<(string, JsonValue)>, exp: int)
    requires '.' !in header
    requires parse(BinaryString(payload)) == Some(JObject(fields))
    requires Lookup(fields, "exp") == Some(JNumber(exp)) && exp != 0
    ensures ExtractExpiration(header + "." + Segment(payload) + "." + signature, parse) == Some(exp * 1000)
  {
    var segment := Segment(payload);
    var token := header + "." + segment + "." + signature;
    assert '.' !in segment by {
      var xs := Base64.ToSextets(payload);
      forall i | 0 <= i < |segment| ensures segment[i] != '.' {
        assert segment[i] == Base64.AlphabetChar(xs[i], '-', '_');
      }
    }
    SplitTwo(header, segment, signature);
    DecodeSegment(payload);
  }

  lemma SplitTwo(a: string, b: string, c: string)
    requires '.' !in a && '.' !in b
    ensures |Split(a + "." + b + "." + c, '.')| >= 2 && Split(a + "." + b + "." + c, '.')[1] == b
  {
    var s := a + "." + b + "." + c;
    IndexOfAfter(a, b + "." + c, '.');
    assert s == a + ['.'] + (b + "." + c);
    assert s[|a| + 1..] == b + ['.'] + c;
    IndexOfAfter(b, c, '.');
    SplitFirst(s, '.');
    SplitFirst(s[|a| + 1..], '.');
  }

  datatype StoredToken = StoredToken(token: string, expiresAt: Option<int>)

  /** A token whose expiry is known and not after now. */
  predicate Expired(token: string, now: int, parse: string -> Option<JsonValue>) {
    var expiresAt := ExtractExpiration(token, parse);
    expiresAt.Some? && expiresAt.value <= now
  }

  /** What loadStoredToken returns for the stored items at time now. */
  function StoredTokenOf(items: map<string, string>, now: int, parse: string -> Option<JsonValue>): (r: Option<StoredToken>)
    ensures r.Some? <==> "token" in items && items["token"] != "" && !Expired(items["token"], now, parse)
    ensures r.Some? ==> r.value == StoredToken(items["token"], ExtractExpiration(items["token"], parse))
    ensures r.Some? ==> r.value.expiresAt.None? || r.value.expiresAt.value > now
  {
    if "token" !in items || items["token"] == "" then None
    else if Expired(items["token"], now, parse) then None
    else Some(StoredToken(items["token"], ExtractExpiration(items["token"], parse)))
  }

  /** The items after loadStoredToken: an expired token is removed, nothing else changes. */
  function ItemsAfterLoad(items: map<string, string>, now: int, parse: string -> Option<JsonValue>): (r: map<string, string>)
    ensures "token" in items && items["token"] != "" && Expired(items["token"], now, parse) ==> r == items - {"token"}
    ensures !("token" in items && items["token"] != "" && Expired(items["token"], now, parse)) ==> r == items
  {
    if "token" in items && items["token"] != "" && Expired(items["token"], now, parse) then items - {"token"} else items
  }

  /** loadStoredToken; a null store is storage that throws, which yields null. */
  method LoadStoredToken(storage: Storage?, now: int, parse: string -> Option<JsonValue>) returns (r: Option<StoredToken>)
    modifies storage
    ensures storage == null ==> r.None?
    ensures storage != null ==> r == StoredTokenOf(old(storage.items), now, parse)
    ensures storage != null ==> storage.items == ItemsAfterLoad(old(storage.items), now, parse)
  {
    if storage == null {
      return None;
    }
    var stored := storage.GetItem("token");
    if Falsy(stored) {
      return None;
    }
    var expiresAt := ExtractExpiration(stored.value, parse);
    if expiresAt.Some? && expiresAt.value <= now {
      storage.RemoveItem("token");
      return None;
    }
    return Some(StoredToken(stored.value, expiresAt));
  }

  /** Loading again at the same moment finds the same token and changes nothing more. */
  lemma LoadIdempotent(items: map<string, string>, now: int, parse: string -> Option<JsonValue>)
    ensures StoredTokenOf(ItemsAfterLoad(items, now, parse), now, parse) == StoredTokenOf(items, now, parse)
    ensures ItemsAfterLoad(ItemsAfterLoad(items, now, parse), now, parse) == ItemsAfterLoad(items, now, parse)
  {
  }

  /** A token without an exp claim is kept with no expiry, however late it is. */
  lemma TokenWithoutExpiryKept(items: map<string, string>, now: int, parse: string -> Option<JsonValue>)
    requires "token" in items && items["token"] != "" && ExtractExpiration(items["token"], parse).None?
    ensures StoredTokenOf(items, now, parse) == Some(StoredToken(items["token"], None))
    ensures ItemsAfterLoad(items, now, parse) == items
  {
  }

  datatype AuthenticatedUser = AuthenticatedUser(id: int, email: string, firstName: Option<string>,
                                                 lastName: Option<string>, ssn: Option<string>)

  /** The keys clearAuth removes. */
  const SessionKeys: set<string> := {"token", "myPlan", "personaLabel"}

  /** The state the provider holds. */
  class AuthSession {
    var token: Option<string>
    var tokenExpiresAt: Option<int>
    var user: Option<AuthenticatedUser>
    var isLoadingUser: bool

    /** The initial state, from the token loadStoredToken gave. */
    constructor (stored: Option<StoredToken>)
      ensures token == (if stored.Some? then Some(stored.value.token) else None)
      ensures tokenExpiresAt == (if stored.Some? then stored.value.expiresAt else None)
      ensures user.None?
      ensures isLoadingUser == (stored.Some? && stored.value.token != "")
    {
      token := if stored.Some? then Some(stored.value.token) else None;
      tokenExpiresAt := if stored.Some? then stored.value.expiresAt else None;
      user := None;
      isLoadingUser := stored.Some? && stored.value.token != "";
    }

    /** Boolean(token): a non-empty token, whether or not the user has loaded. */
    predicate IsAuthenticated()
      reads this
    {
      token.Some? && token.value != ""
    }

    /** user?.id ?? null. */
    function UserId(): (r: Option<int>)
      reads this
      ensures r.Some? <==> user.Some?
      ensures r.Some? ==> r.value == user.value.id
    {
      if user.Some? then Some(user.value.id) else None
    }

    /** clearAuth: forget token, expiry and user and drop the session keys from storage. */
    method ClearAuth(storage: Storage?)
      modifies this, storage
      ensures token.None? && tokenExpiresAt.None? && user.None? && isLoadingUser == old(isLoadingUser)
      ensures storage != null ==> storage.items == old(storage.items) - SessionKeys
    {
      token, tokenExpiresAt, user := None, None, None;
      if storage != null {
        storage.RemoveItem("token");
        storage.RemoveItem("myPlan");
        storage.RemoveItem("personaLabel");
      }
    }

    /** persistAuth: hold the new token and its expiry and store it. */
    method PersistAuth(nextToken: string, storage: Storage?, parse: string -> Option<JsonValue>)
      modifies this, storage
      ensures token == Some(nextToken) && tokenExpiresAt == ExtractExpiration(nextToken, parse)
      ensures user == old(user) && isLoadingUser == old(isLoadingUser)
      ensures storage != null ==> storage.items == old(storage.items)["token" := nextToken]
    {
      token := Some(nextToken);
      tokenExpiresAt := ExtractExpiration(nextToken, parse);
      if storage != null {
        storage.SetItem("token", nextToken);
      }
    }

    /**
     * handleUnauthorized: clear the session, then go to /login remembering where the user was,
     * unless the user is already there.
     */
    method HandleUnauthorized(storage: Storage?, pathname: string, search: string) returns (redirect: Option<(string, string)>)
      modifies this, storage
      ensures !IsAuthenticated() && user.None?
      ensures storage != null ==> storage.items == old(storage.items) - SessionKeys
      ensures redirect.Some? <==> pathname != "/login"
      ensures redirect.Some? ==> redirect.value == ("/login", pathname + search)
    {
      ClearAuth(storage);
      if pathname != "/login" {
        return Some(("/login", pathname + search));
      }
      return None;
    }
  }

  /** A token just stored is found again on reload, with its expiry, unless it has expired by then. */
  lemma PersistThenLoad(items: map<string, string>, nextToken: string, now: int, parse: string -> Option<JsonValue>)
    requires nextToken != ""
    ensures Expired(nextToken, now, parse) ==> StoredTokenOf(items["token" := nextToken], now, parse).None?
    ensures !Expired(nextToken, now, parse) ==>
      StoredTokenOf(items["token" := nextToken], now, parse) == Some(StoredToken(nextToken, ExtractExpiration(nextToken, parse)))
  {
  }

  /** After clearAuth no token survives a reload. */
  lemma ClearThenLoad(items: map<string, string>, now: int, parse: string -> Option<JsonValue>)
    ensures StoredTokenOf(items - SessionKeys, now, parse).None?
  {
  }

  /** login's destination: the caller's redirectTo, else where the user came from unless that was /login, else /insurance. */
  function LoginRedirect(redirectTo: Option<string>, from: Option<string>): (r: string)
    ensures redirectTo.Some? ==> r == redirectTo.value
    ensures redirectTo.None? && from.Some? && from.value != "" && from.value != "/login" ==> r == from.value
    ensures redirectTo.None? && !(from.Some? && from.value != "" && from.value != "/login") ==> r == "/insurance"
  {
    if redirectTo.Some? then redirectTo.value
    else if from.Some? && from.value != "" && from.value != "/login" then from.value
    else "/insurance"
  }

  /** Without an explicit target, login never sends the user back to the login page. */
  lemma LoginNeverBackToLogin(from: Option<string>)
    ensures LoginRedirect(None, from) != "/login"
  {
  }

  /** logout's destination: the caller's redirectTo, else /login. */
  function LogoutRedirect(redirectTo: Option<string>): (r: string)
    ensures redirectTo.Some? ==> r == redirectTo.value
    ensures redirectTo.None? ==> r == "/login"
  {
    redirectTo.GetOr("/login")
  }
}
