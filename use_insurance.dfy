/**
 * The insurance-application download of the first frontend: the guard that demands a login, the
 * request, the error message of a failed response and the file name taken from the
 * Content-Disposition header.
 */
module UseInsurance {
  import opened Wrappers
  import opened Text
  import opened Json
  import ApiClient
  import Uri

  const DefaultFilename: string := "insurance_request.xml"
  const SuccessMessage: string := "Forsikringssøknad generert og lastet ned."
  const LoginRequiredMessage: string := "Du må være innlogget for å sende søknaden."
  const EncodedLiteral: string := "filename*=UTF-8''"
  const PlainLiteral: string := "filename="

  /** The longest prefix of s whose characters all satisfy ok. */
  function TakeWhile(s: string, ok: char -> bool): (r: string)
    ensures |r| <= |s| && r == s[..|r|]
    ensures forall i :: 0 <= i < |r| ==> ok(r[i])
    ensures |r| < |s| ==> !ok(s[|r|])
  {
    if s == [] || !ok(s[0]) then [] else [s[0]] + TakeWhile(s[1..], ok)
  }

  /** The characters a regular-expression `.` does not match. */
  predicate IsLineTerminator(c: char) {
    c == '\n' || c == '\r' || c == '\U{2028}' || c == '\U{2029}'
  }

  /** s starts with the literal, letters compared without regard to case (the /i flag). */
  predicate StartsWithLiteral(s: string, literal: string) {
    |literal| <= |s| && EqualsIgnoreCase(s[..|literal|], literal)
  }

  /** Which alternative of the pattern matched, with its capture group. */
  datatype FilenameMatch = Encoded(encoded: string) | Quoted(quoted: string)

  /**
   * The pattern `filename\*=UTF-8''(.+)|filename="?([^";]+)"?` tried at the start of s: the first
   * alternative takes the rest of the line; the second an optional quote and then everything up to a
   * quote or semicolon, giving the quote back when nothing would follow it.
   */
  function MatchHere(s: string): (r: Option<FilenameMatch>)
    ensures r.Some? && r.value.Encoded? ==> StartsWithLiteral(s, EncodedLiteral) && r.value.encoded != []
    ensures r.Some? && r.value.Quoted? ==> StartsWithLiteral(s, PlainLiteral) && r.value.quoted != []
  {
    var line := if StartsWithLiteral(s, EncodedLiteral) then TakeWhile(s[|EncodedLiteral|..], c => !IsLineTerminator(c)) else [];
    if line != [] then Some(Encoded(line))
    else if StartsWithLiteral(s, PlainLiteral) then
      var rest := s[|PlainLiteral|..];
      var value := if rest != [] && rest[0] == '"' then rest[1..] else rest;
      var name := TakeWhile(value, c => c != '"' && c != ';');
      if name != [] then Some(Quoted(name)) else None
    else None
  }

  function MatchAt(d: string, i: nat): Option<FilenameMatch> {
    if i <= |d| then MatchHere(d[i..]) else None
  }

  /** The first of f(i), ..., f(n - 1) that holds something. */
  function FirstSome<T>(f: nat -> Option<T>, i: nat, n: nat): Option<T>
    decreases n - i
  {
    if i >= n then None
    else if f(i).Some? then f(i)
    else FirstSome(f, i + 1, n)
  }

  /** Nothing is found exactly when every candidate holds nothing. */
  lemma {:induction false} FirstSomeNone<T>(f: nat -> Option<T>, i: nat, n: nat)
    ensures FirstSome(f, i, n).None? <==> forall j :: i <= j < n ==> f(j).None?
    decreases n - i
  {
    if i < n {
      FirstSomeNone(f, i + 1, n);
    }
  }

  /** The candidates before the first that holds something are skipped. */
  lemma {:induction false} FirstSomeAt<T>(f: nat -> Option<T>, i: nat, j: nat, n: nat)
    requires i <= j < n
    requires forall k :: i <= k < j ==> f(k).None?
    requires f(j).Some?
    ensures FirstSome(f, i, n) == f(j)
    decreases j - i
  {
    if i < j {
      FirstSomeAt(f, i + 1, j, n);
    }
  }

  /** String.prototype.match: the match at the leftmost position where the pattern matches. */
  function FirstMatch(d: string): Option<FilenameMatch> {
    FirstSome(j => MatchAt(d, j), 0, |d|)
  }

  /** extractFilename: the decoded or plain file name of the first matching parameter, else the default. */
  function ExtractFilename(disposition: Option<string>): (r: string)
    ensures FirstMatch(disposition.GetOr("")).None? ==> r == DefaultFilename
    ensures FirstMatch(disposition.GetOr("")).Some? && FirstMatch(disposition.GetOr("")).value.Quoted? ==>
      r == FirstMatch(disposition.GetOr("")).value.quoted
  {
    var d := disposition.GetOr("");
    match FirstMatch(d)
    case None => DefaultFilename
    case Some(Encoded(encoded)) => Uri.DecodeUriComponent(encoded).GetOr(encoded)
    case Some(Quoted(quoted)) => quoted
  }

  /** Without a header, or with one no position of which matches, the file gets the default name. */
  lemma DefaultWithoutFilename(disposition: Option<string>)
    requires disposition.None? || forall j :: 0 <= j < |disposition.value| ==> MatchAt(disposition.value, j).None?
    ensures ExtractFilename(disposition) == DefaultFilename
  {
    FirstSomeNone(j => MatchAt(disposition.GetOr(""), j), 0, |disposition.GetOr("")|);
  }

  /** Text in which no letter f occurs cannot start a match. */
  predicate NoLetterF(s: string) {
    forall i :: 0 <= i < |s| ==> LowerChar(s[i]) != 'f'
  }

  /** Text in which no letter f occurs cannot start a match. */
  lemma NoMatchBefore(prefix: string, rest: string)
    requires NoLetterF(prefix)
    ensures forall k :: 0 <= k < |prefix| ==> MatchAt(prefix + rest, k).None?
  {
    forall k | 0 <= k < |prefix|
      ensures MatchAt(prefix + rest, k).None?
    {
      var s := (prefix + rest)[k..];
      assert s[0] == prefix[k];
      assert |EncodedLiteral| <= |s| ==> s[..|EncodedLiteral|][0] == s[0];
      assert |PlainLiteral| <= |s| ==> s[..|PlainLiteral|][0] == s[0];
    }
  }

  /** filename="x" and filename=x give x, which ends at the first quote or semicolon. */
  lemma PlainFilename(prefix: string, quote: string, name: string, suffix: string)
    requires NoLetterF(prefix)
    requires quote == "" || quote == "\""
    requires name != [] && forall i :: 0 <= i < |name| ==> name[i] != '"' && name[i] != ';'
    requires suffix == [] || suffix[0] == '"' || suffix[0] == ';'
    ensures ExtractFilename(Some(prefix + PlainLiteral + quote + name + suffix)) == name
  {
    var rest := PlainLiteral + quote + name + suffix;
    var d := prefix + rest;
    assert d == prefix + PlainLiteral + quote + name + suffix;
    NoMatchBefore(prefix, rest);
    assert d[|prefix|..] == rest;
    PlainMatch(quote, name, suffix);
    FirstSomeAt(j => MatchAt(d, j), 0, |prefix|, |d|);
  }

  lemma PlainMatch(quote: string, name: string, suffix: string)
    requires quote == "" || quote == "\""
    requires name != [] && forall i :: 0 <= i < |name| ==> name[i] != '"' && name[i] != ';'
    requires suffix == [] || suffix[0] == '"' || suffix[0] == ';'
    ensures MatchHere(PlainLiteral + quote + name + suffix) == Some(Quoted(name))
  {
    var s := PlainLiteral + quote + name + suffix;
    PlainNotEncoded(s);
    assert s[..|PlainLiteral|] == PlainLiteral;
    assert s[|PlainLiteral|..] == quote + name + suffix;
    PlainName(quote, name, suffix);
  }

  /** After filename= the optional quote is skipped and the name runs to the first quote or semicolon. */
  lemma PlainName(quote: string, name: string, suffix: string)
    requires quote == "" || quote == "\""
    requires name != [] && forall i :: 0 <= i < |name| ==> name[i] != '"' && name[i] != ';'
    requires suffix == [] || suffix[0] == '"' || suffix[0] == ';'
    ensures var rest := quote + name + suffix;
      TakeWhile(if rest != [] && rest[0] == '"' then rest[1..] else rest, c => c != '"' && c != ';') == name
  {
    var rest := quote + name + suffix;
    assert rest[|quote|..] == name + suffix;
    TakeWhilePrefix(name, suffix, c => c != '"' && c != ';');
  }

  /** Text that starts with filename= has '=' where the encoded literal has '*'. */
  lemma PlainNotEncoded(s: string)
    requires |s| >= |PlainLiteral| && s[..|PlainLiteral|] == PlainLiteral
    ensures !StartsWithLiteral(s, EncodedLiteral)
  {
    assert s[8] == '=';
    assert |EncodedLiteral| <= |s| ==> s[..|EncodedLiteral|][8] == '=';
  }

  /** filename*=UTF-8''x gives decodeURIComponent(x), or x itself where decoding throws. */
  lemma EncodedFilename(prefix: string, encoded: string)
    requires NoLetterF(prefix)
    requires encoded != [] && forall i :: 0 <= i < |encoded| ==> !IsLineTerminator(encoded[i])
    ensures ExtractFilename(Some(prefix + EncodedLiteral + encoded)) == Uri.DecodeUriComponent(encoded).GetOr(encoded)
  {
    EncodedFirstMatch(prefix, encoded);
  }

  lemma EncodedFirstMatch(prefix: string, encoded: string)
    requires NoLetterF(prefix)
    requires encoded != [] && forall i :: 0 <= i < |encoded| ==> !IsLineTerminator(encoded[i])
    ensures FirstMatch(prefix + EncodedLiteral + encoded) == Some(Encoded(encoded))
  {
    var rest := EncodedLiteral + encoded;
    var d := prefix + rest;
    assert d == prefix + EncodedLiteral + encoded;
    NoMatchBefore(prefix, rest);
    assert d[|prefix|..] == rest;
    EncodedMatch(encoded);
    FirstSomeAt(j => MatchAt(d, j), 0, |prefix|, |d|);
  }

  lemma EncodedMatch(encoded: string)
    requires encoded != [] && forall i :: 0 <= i < |encoded| ==> !IsLineTerminator(encoded[i])
    ensures MatchHere(EncodedLiteral + encoded) == Some(Encoded(encoded))
  {
    var rest := EncodedLiteral + encoded;
    assert rest[..|EncodedLiteral|] == EncodedLiteral;
    assert rest[|EncodedLiteral|..] == encoded + [];
    TakeWhilePrefix(encoded, [], c => !IsLineTerminator(c));
  }

  /** A name the server wrote with encodeURIComponent after filename*=UTF-8'' comes back exactly. */
  lemma EncodedFilenameRoundTrip(prefix: string, name: string)
    requires NoLetterF(prefix) && name != []
    ensures ExtractFilename(Some(prefix + EncodedLiteral + Uri.EncodeUriComponent(name))) == name
  {
    var encoded := Uri.EncodeUriComponent(name);
    EncodedOnOneLine(encoded);
    EncodedFilename(prefix, encoded);
    Uri.DecodeEncode(name);
  }

  lemma EncodedOnOneLine(encoded: string)
    requires forall i :: 0 <= i < |encoded| ==> Uri.EncodedChar(encoded[i])
    ensures forall i :: 0 <= i < |encoded| ==> !IsLineTerminator(encoded[i])
  {
  }

  lemma {:induction false} TakeWhilePrefix(s: string, t: string, ok: char -> bool)
    requires forall i :: 0 <= i < |s| ==> ok(s[i])
    requires t == [] || !ok(t[0])
    ensures TakeWhile(s + t, ok) == s
  {
    if s == [] {
      assert s + t == t;
    } else {
      assert (s + t)[1..] == s[1..] + t;
      TakeWhilePrefix(s[1..], t, ok);
    }
  }

  /** The header the download test sends. */
  lemma AttachmentFilename()
    ensures ExtractFilename(Some("attachment; filename=\"insurance.xml\"")) == "insurance.xml"
  {
    assert "attachment; filename=\"insurance.xml\"" == "attachment; " + PlainLiteral + "\"" + "insurance.xml" + "\"";
    PlainFilename("attachment; ", "\"", "insurance.xml", "\"");
  }

  /** ensureAuthenticated: an ApiError 401 unless logged in with a non-empty token. */
  function EnsureAuthenticated(isAuthenticated: bool, token: Option<string>): (r: Option<ApiClient.ApiError>)
    ensures r.None? <==> isAuthenticated && token.Some? && token.value != ""
    ensures r.Some? ==> r.value.status == 401 && r.value.message == LoginRequiredMessage
  {
    if !isAuthenticated || token.None? || token.value == "" then Some(ApiClient.ApiError(LoginRequiredMessage, 401, None))
    else None
  }

  /** A response to POST /insurance/send: its status, Content-Disposition header and body text. */
  datatype InsuranceResponse = InsuranceResponse(status: int, disposition: Option<string>, body: string)

  function StatusMessage(status: int): string {
    "Request failed with status " + IntToString(status)
  }

  /** The message field of a JSON object body, when it is a string. */
  function JsonMessage(data: Option<JsonValue>): (r: Option<string>)
    ensures r.Some? ==> data.Some? && Get(data.value, "message") == Some(JString(r.value))
  {
    if data.Some? && data.value.JObject? && Get(data.value, "message").Some? && Get(data.value, "message").value.JString? then
      Some(Get(data.value, "message").value.s)
    else None
  }

  /**
   * extractErrorMessage as written: it calls response.json() and then response.text() on the same
   * response, but a body can be read only once, so once the JSON attempt has failed the text read
   * rejects as well and only the status message is left.
   */
  function ExtractErrorMessageAsWritten(response: InsuranceResponse, parse: string -> Option<JsonValue>): (r: string)
    ensures JsonMessage(parse(response.body)).Some? ==> r == JsonMessage(parse(response.body)).value
    ensures JsonMessage(parse(response.body)).None? ==> r == StatusMessage(response.status)
  {
    match JsonMessage(parse(response.body))
    case Some(message) => message
    case None => StatusMessage(response.status)
  }

  /** What extractErrorMessage evidently means: the JSON message, else the body text, else the status. */
  function ExtractErrorMessage(response: InsuranceResponse, parse: string -> Option<JsonValue>): (r: string)
    ensures JsonMessage(parse(response.body)).Some? ==> r == JsonMessage(parse(response.body)).value
    ensures JsonMessage(parse(response.body)).None? && response.body != "" ==> r == response.body
    ensures JsonMessage(parse(response.body)).None? && response.body == "" ==> r == StatusMessage(response.status)
  {
    match JsonMessage(parse(response.body))
    case Some(message) => message
    case None => if response.body != "" then response.body else StatusMessage(response.status)
  }

  /** A plain-text error body never reaches the user as written; read once, it does. */
  lemma TextBodyLost(status: int, text: string, parse: string -> Option<JsonValue>)
    requires text != "" && parse(text).None?
    ensures ExtractErrorMessageAsWritten(InsuranceResponse(status, None, text), parse) == StatusMessage(status)
    ensures ExtractErrorMessage(InsuranceResponse(status, None, text), parse) == text
  {
  }

  /** The two agree whenever the body holds a JSON message or is empty. */
  lemma ErrorMessagesAgree(response: InsuranceResponse, parse: string -> Option<JsonValue>)
    requires JsonMessage(parse(response.body)).Some? || response.body == ""
    ensures ExtractErrorMessageAsWritten(response, parse) == ExtractErrorMessage(response, parse)
  {
  }

  datatype Download = Download(filename: string, message: string)

  /** How sendInsurance ends: what it resolves with or throws, and the error state it leaves. */
  datatype SendOutcome = SendOutcome(result: Result<Download, ApiClient.Thrown>, error: Option<string>)

  /**
   * What sendInsurance does once the error message of a failed response is known: the guard throws
   * before anything else; a network failure or a non-ok response stores the error's message and
   * rethrows it; a success names the download and resolves with the fixed message. `response` is
   * nothing where fetch rejects with networkMessage.
   */
  function Send(isAuthenticated: bool, token: Option<string>, previousError: Option<string>,
                response: Option<InsuranceResponse>, networkMessage: string,
                failureMessage: InsuranceResponse -> string): (r: SendOutcome)
    ensures EnsureAuthenticated(isAuthenticated, token).Some? ==>
      r == SendOutcome(Err(ApiClient.ApiErrorThrown(EnsureAuthenticated(isAuthenticated, token).value)), previousError)
    ensures r.result.Ok? <==> EnsureAuthenticated(isAuthenticated, token).None? && response.Some? && 200 <= response.value.status <= 299
    ensures r.result.Ok? ==> r.error.None? && r.result.value == Download(ExtractFilename(response.value.disposition), SuccessMessage)
    ensures EnsureAuthenticated(isAuthenticated, token).None? && response.Some? && !(200 <= response.value.status <= 299) ==>
      var thrown := ApiClient.ApiErrorThrown(ApiClient.ApiError(failureMessage(response.value), response.value.status, None));
      r == SendOutcome(Err(thrown), Some(ApiClient.GetErrorMessage(thrown, None)))
    ensures EnsureAuthenticated(isAuthenticated, token).None? && response.None? ==>
      r == SendOutcome(Err(ApiClient.ErrorThrown(networkMessage)), Some(ApiClient.GetErrorMessage(ApiClient.ErrorThrown(networkMessage), None)))
  {
    match EnsureAuthenticated(isAuthenticated, token)
    case Some(e) => SendOutcome(Err(ApiClient.ApiErrorThrown(e)), previousError)
    case None =>
      match response
      case None =>
        var thrown := ApiClient.ErrorThrown(networkMessage);
        SendOutcome(Err(thrown), Some(ApiClient.GetErrorMessage(thrown, None)))
      case Some(res) =>
        if 200 <= res.status <= 299 then
          SendOutcome(Ok(Download(ExtractFilename(res.disposition), SuccessMessage)), None)
        else
          var thrown := ApiClient.ApiErrorThrown(ApiClient.ApiError(failureMessage(res), res.status, None));
          SendOutcome(Err(thrown), Some(ApiClient.GetErrorMessage(thrown, None)))
  }

  /** sendInsurance as written: a failed response's message comes from extractErrorMessage as it stands. */
  function SendInsurance(isAuthenticated: bool, token: Option<string>, previousError: Option<string>,
                         response: Option<InsuranceResponse>, networkMessage: string,
                         parse: string -> Option<JsonValue>): (r: SendOutcome)
    ensures r.result.Ok? <==> EnsureAuthenticated(isAuthenticated, token).None? && response.Some? && 200 <= response.value.status <= 299
    ensures EnsureAuthenticated(isAuthenticated, token).None? && response.Some? && !(200 <= response.value.status <= 299) ==>
      r.result == Err(ApiClient.ApiErrorThrown(ApiClient.ApiError(ExtractErrorMessageAsWritten(response.value, parse), response.value.status, None)))
  {
    Send(isAuthenticated, token, previousError, response, networkMessage, res => ExtractErrorMessageAsWritten(res, parse))
  }

  /** sendInsurance with the error message read as extractErrorMessage evidently means it. */
  function SendInsuranceCorrected(isAuthenticated: bool, token: Option<string>, previousError: Option<string>,
                                  response: Option<InsuranceResponse>, networkMessage: string,
                                  parse: string -> Option<JsonValue>): (r: SendOutcome)
    ensures r.result.Ok? <==> EnsureAuthenticated(isAuthenticated, token).None? && response.Some? && 200 <= response.value.status <= 299
    ensures EnsureAuthenticated(isAuthenticated, token).None? && response.Some? && !(200 <= response.value.status <= 299) ==>
      r.result == Err(ApiClient.ApiErrorThrown(ApiClient.ApiError(ExtractErrorMessage(response.value, parse), response.value.status, None)))
  {
    Send(isAuthenticated, token, previousError, response, networkMessage, res => ExtractErrorMessage(res, parse))
  }

  /**
   * A rejected request throws an ApiError carrying the server's status and, as written, the JSON
   * message or else the status message; that message also becomes the error state.
   */
  lemma FailedRequestThrows(token: string, previousError: Option<string>, response: InsuranceResponse, networkMessage: string,
                            parse: string -> Option<JsonValue>)
    requires token != "" && !(200 <= response.status <= 299)
    ensures var message := if JsonMessage(parse(response.body)).Some? then JsonMessage(parse(response.body)).value else StatusMessage(response.status);
      var r := SendInsurance(true, Some(token), previousError, Some(response), networkMessage, parse);
      && r.result == Err(ApiClient.ApiErrorThrown(ApiClient.ApiError(message, response.status, None)))
      && (message != "" ==> r.error == Some(message))
  {
  }

  /** A plain-text error body: the status message as written, the body itself once the body is read only once. */
  lemma PlainTextFailure(token: string, response: InsuranceResponse, networkMessage: string,
                         parse: string -> Option<JsonValue>)
    requires token != "" && !(200 <= response.status <= 299) && response.body != "" && parse(response.body).None?
    ensures SendInsurance(true, Some(token), None, Some(response), networkMessage, parse).error == Some(StatusMessage(response.status))
    ensures SendInsuranceCorrected(true, Some(token), None, Some(response), networkMessage, parse).error == Some(response.body)
  {
    StatusMessageNotEmpty(response.status);
  }

  lemma StatusMessageNotEmpty(status: int)
    ensures StatusMessage(status) != ""
  {
  }

  /** Both readings end every request alike except in the message of a failed response with a text body. */
  lemma SendReadingsAgree(isAuthenticated: bool, token: Option<string>, previousError: Option<string>,
                          response: Option<InsuranceResponse>, networkMessage: string,
                          parse: string -> Option<JsonValue>)
    requires response.Some? ==> JsonMessage(parse(response.value.body)).Some? || response.value.body == ""
    ensures SendInsurance(isAuthenticated, token, previousError, response, networkMessage, parse) ==
      SendInsuranceCorrected(isAuthenticated, token, previousError, response, networkMessage, parse)
  {
    if response.Some? {
      ErrorMessagesAgree(response.value, parse);
    }
  }
}
