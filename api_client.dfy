/**
 * The browser's JSON client: every call goes to the configured base URL with JSON as the default
 * content type and the current bearer token unless the caller opts out; the answer is read as JSON
 * when the server says so and as text otherwise, and a failed call becomes an ApiError with the
 * server's message when it sent one. The network is a parameter: the response fetch resolves to, or
 * None when it rejects. JSON.stringify is a parameter too.
 */
module ApiClient {
  import opened Wrappers
  import opened Text
  import opened Json

  /** The client configuration: what getToken returns now, if one is set, and whether onUnauthorized is set. */
  datatype ClientConfig = ClientConfig(getToken: Option<Option<string>>, hasOnUnauthorized: bool)

  /** A request body as the caller passes it: undefined, a FormData, or any other JavaScript value. */
  datatype Body = Undefined | Form(form: nat) | Value(value: JsonValue)

  /** The body handed to fetch. */
  datatype SentBody = NoBody | NullBody | TextBody(text: string) | FormBody(form: nat)

  /** The options fetchJson reads: skipAuth, caller headers as a plain object, body, and the HTTP method among the rest. */
  datatype FetchOptions = FetchOptions(skipAuth: bool, headers: Option<map<string, string>>, body: Body, httpMethod: Option<string>)

  datatype Request = Request(url: string, httpMethod: Option<string>, headers: map<string, string>, body: SentBody)

  /** What the server answered: status, Content-Type, and what response.json() and response.text() yield (None when they reject). */
  datatype Response = Response(status: int, contentType: Option<string>, json: Option<JsonValue>, text: Option<string>)

  datatype ApiError = ApiError(message: string, status: int, details: Option<JsonValue>)

  /** One call: the request sent, its outcome, and whether onUnauthorized was invoked. */
  datatype Exchange = Exchange(request: Request, outcome: Result<JsonValue, ApiError>, unauthorizedCalled: bool)

  const NetworkErrorMessage: string := "Klarte ikke å kontakte serveren"

  predicate ResponseOk(response: Response) {
    200 <= response.status <= 299
  }

  /** configureApiClient replaces the whole module-level configuration. */
  class Client {
    var config: ClientConfig

    constructor ()
      ensures config == ClientConfig(None, false)
    {
      config := ClientConfig(None, false);
    }

    method Configure(c: ClientConfig)
      modifies this
      ensures config == c
    {
      config := c;
    }

    /** fetchJson against the configuration in force. */
    method FetchJson(baseUrl: string, path: string, options: FetchOptions, stringify: JsonValue -> string,
                     send: Request -> Option<Response>) returns (exchange: Exchange)
      ensures exchange == Fetch(config, baseUrl, path, options, stringify, send)
    {
      exchange := Fetch(config, baseUrl, path, options, stringify, send);
    }
  }

  /** The token getToken supplies, when it is set and returns a non-empty string. */
  function BearerToken(config: ClientConfig): (r: Option<string>)
    ensures r.Some? <==> config.getToken.Some? && config.getToken.value.Some? && config.getToken.value.value != ""
    ensures r.Some? ==> r.value == config.getToken.value.value
  {
    if config.getToken.Some? && config.getToken.value.Some? && config.getToken.value.value != "" then config.getToken.value else None
  }

  /**
   * buildHeaders: JSON content type unless the caller sets one, the caller's headers, and then
   * Authorization "Bearer <token>" over any caller value unless auth is skipped or there is no token.
   */
  function BuildHeaders(config: ClientConfig, callerHeaders: Option<map<string, string>>, skipAuth: bool): (r: map<string, string>)
    ensures var caller := callerHeaders.GetOr(map[]);
      && r.Keys == caller.Keys + {"Content-Type"} + (if !skipAuth && BearerToken(config).Some? then {"Authorization"} else {})
      && r["Content-Type"] == (if "Content-Type" in caller then caller["Content-Type"] else "application/json")
      && (!skipAuth && BearerToken(config).Some? ==> r["Authorization"] == "Bearer " + BearerToken(config).value)
      && (forall k :: k in caller && k != "Content-Type" && k != "Authorization" ==> r[k] == caller[k])
      && ((skipAuth || BearerToken(config).None?) && "Authorization" in caller ==> r["Authorization"] == caller["Authorization"])
  {
    var headers := map["Content-Type" := "application/json"] + callerHeaders.GetOr(map[]);
    if !skipAuth && config.getToken.Some? then
      var token := config.getToken.value;
      if token.Some? && token.value != "" then headers["Authorization" := "Bearer " + token.value] else headers
    else headers
  }

  /** serializeBody: null, undefined, strings and FormData pass through; anything else is stringified. */
  function SerializeBody(body: Body, stringify: JsonValue -> string): (r: SentBody)
    ensures body == Undefined ==> r == NoBody
    ensures body == Value(JNull) ==> r == NullBody
    ensures body.Value? && body.value.JString? ==> r == TextBody(body.value.s)
    ensures body.Form? ==> r == FormBody(body.form)
    ensures body.Value? && !body.value.JNull? && !body.value.JString? ==> r == TextBody(stringify(body.value))
  {
    match body
    case Undefined => NoBody
    case Form(f) => FormBody(f)
    case Value(JNull) => NullBody
    case Value(JString(s)) => TextBody(s)
    case Value(v) => TextBody(stringify(v))
  }

  /** response.headers.get('Content-Type') || ''. */
  function ContentType(response: Response): string {
    response.contentType.GetOr("")
  }

  /** parseResponse: JSON when the content type mentions application/json, text otherwise; null when reading fails. */
  function ParseResponse(response: Response): (r: JsonValue)
    ensures Contains(ContentType(response), "application/json") && response.json.Some? ==> r == response.json.value
    ensures !Contains(ContentType(response), "application/json") && response.text.Some? ==> r == JString(response.text.value)
    ensures (if Contains(ContentType(response), "application/json") then response.json.None? else response.text.None?) ==> r == JNull
  {
    if Contains(ContentType(response), "application/json") then response.json.GetOr(JNull)
    else if response.text.Some? then JString(response.text.value)
    else JNull
  }

  /** extractErrorMessage: the message field when the data is an object whose message is a string. */
  function ExtractErrorMessage(data: JsonValue, status: int): (r: string)
    ensures data.JObject? && Lookup(data.fields, "message").Some? && Lookup(data.fields, "message").value.JString? ==>
              r == Lookup(data.fields, "message").value.s
    ensures !(data.JObject? && Lookup(data.fields, "message").Some? && Lookup(data.fields, "message").value.JString?) ==>
              r == "Request failed with status " + IntToString(status)
  {
    match data
    case JObject(fields) =>
      (match Lookup(fields, "message")
       case Some(JString(m)) => m
       case _ => "Request failed with status " + IntToString(status))
    case _ => "Request failed with status " + IntToString(status)
  }

  /** fetchJson, composed of its helpers. */
  function Fetch(config: ClientConfig, baseUrl: string, path: string, options: FetchOptions, stringify: JsonValue -> string,
                 send: Request -> Option<Response>): (r: Exchange)
    ensures r.request == Request(baseUrl + path, options.httpMethod, BuildHeaders(config, options.headers, options.skipAuth),
                                 SerializeBody(options.body, stringify))
    ensures send(r.request).None? ==> r.outcome == Err(ApiError(NetworkErrorMessage, 0, None)) && !r.unauthorizedCalled
    ensures send(r.request).Some? && ResponseOk(send(r.request).value) ==> r.outcome == Ok(ParseResponse(send(r.request).value)) && !r.unauthorizedCalled
    ensures send(r.request).Some? && !ResponseOk(send(r.request).value) ==>
              var response := send(r.request).value;
              var data := ParseResponse(response);
              && r.outcome == Err(ApiError(ExtractErrorMessage(data, response.status), response.status, Some(data)))
              && (r.unauthorizedCalled <==> response.status == 401 && config.hasOnUnauthorized)
  {
    var request := Request(baseUrl + path, options.httpMethod, BuildHeaders(config, options.headers, options.skipAuth),
                           SerializeBody(options.body, stringify));
    match send(request)
    case None => Exchange(request, Err(ApiError(NetworkErrorMessage, 0, None)), false)
    case Some(response) =>
      var data := ParseResponse(response);
      if !ResponseOk(response) then
        Exchange(request, Err(ApiError(ExtractErrorMessage(data, response.status), response.status, Some(data))),
                 response.status == 401 && config.hasOnUnauthorized)
      else Exchange(request, Ok(data), false)
  }

  /** onUnauthorized runs only for a 401 answer, and then only when it is configured. */
  lemma UnauthorizedOnlyFor401(config: ClientConfig, baseUrl: string, path: string, options: FetchOptions,
                               stringify: JsonValue -> string, send: Request -> Option<Response>)
    ensures var r := Fetch(config, baseUrl, path, options, stringify, send);
      r.unauthorizedCalled ==> config.hasOnUnauthorized && r.outcome.Err? && r.outcome.error.status == 401
  {
  }

  /** With skipAuth the token never reaches the request, whatever getToken returns. */
  lemma SkipAuthIgnoresToken(config: ClientConfig, other: ClientConfig, callerHeaders: Option<map<string, string>>)
    ensures BuildHeaders(config, callerHeaders, true) == BuildHeaders(other, callerHeaders, true)
  {
  }

  /** What was thrown, as getErrorMessage tells the cases apart. */
  datatype Thrown =
    | Falsy                          // undefined, null, false, 0 or ''
    | ApiErrorThrown(error: ApiError)
    | ErrorThrown(message: string)   // any other Error
    | ObjectThrown(messageField: Option<JsonValue>)
    | OtherThrown                    // a truthy value that is not an object

  /** getErrorMessage: the error's own message, then the fallback, then a default. */
  function GetErrorMessage(error: Thrown, fallback: Option<string>): (r: string)
    ensures error.Falsy? || error.OtherThrown? ==> r == fallback.GetOr("Ukjent feil")
    ensures error.ApiErrorThrown? && error.error.message != "" ==> r == error.error.message
    ensures error.ErrorThrown? && error.message != "" ==> r == error.message
    ensures (error.ApiErrorThrown? && error.error.message == "") || (error.ErrorThrown? && error.message == "") ==>
              (fallback.Some? && fallback.value != "" ==> r == fallback.value)
    ensures error.ApiErrorThrown? && error.error.message == "" && !(fallback.Some? && fallback.value != "") ==>
              r == "Feil: " + IntToString(error.error.status)
    ensures error.ErrorThrown? && error.message == "" && !(fallback.Some? && fallback.value != "") ==> r == "Ukjent feil"
    ensures error.ObjectThrown? && error.messageField.Some? && error.messageField.value.JString? ==> r == error.messageField.value.s
    ensures error.ObjectThrown? && !(error.messageField.Some? && error.messageField.value.JString?) ==> r == fallback.GetOr("Ukjent feil")
  {
    match error
    case Falsy => fallback.GetOr("Ukjent feil")
    case ApiErrorThrown(e) =>
      if e.message != "" then e.message
      else if fallback.Some? && fallback.value != "" then fallback.value
      else "Feil: " + IntToString(e.status)
    case ErrorThrown(m) =>
      if m != "" then m
      else if fallback.Some? && fallback.value != "" then fallback.value
      else "Ukjent feil"
    case ObjectThrown(m) =>
      if m.Some? && m.value.JString? then m.value.s else fallback.GetOr("Ukjent feil")
    case OtherThrown => fallback.GetOr("Ukjent feil")
  }

  /** The message of an error from fetchJson is never empty unless the server sent an empty message. */
  lemma FetchErrorMessage(config: ClientConfig, baseUrl: string, path: string, options: FetchOptions,
                          stringify: JsonValue -> string, send: Request -> Option<Response>)
    ensures var r := Fetch(config, baseUrl, path, options, stringify, send);
      r.outcome.Err? && r.outcome.error.message == "" ==>
        var data := ParseResponse(send(r.request).value);
        data.JObject? && Lookup(data.fields, "message") == Some(JString(""))
  {
    var r := Fetch(config, baseUrl, path, options, stringify, send);
    assert |NetworkErrorMessage| > 0;
    if send(r.request).Some? {
      var response := send(r.request).value;
      var status := response.status;
      assert |"Request failed with status " + IntToString(status)| > 0;
    }
  }
}

/**
 * The second copy of the JSON client, with the header, body and response handling written inline
 * in fetchJson. Its types and getErrorMessage are the first copy's.
 */
module RestructuringApiClient {
  import opened Wrappers
  import opened Text
  import opened Json
  import opened ApiClient

  /** fetchJson as this copy writes it. */
  function FetchJson(config: ClientConfig, baseUrl: string, path: string, options: FetchOptions, stringify: JsonValue -> string,
                     send: Request -> Option<Response>): (r: Exchange)
    ensures r.request.url == baseUrl + path && r.request.httpMethod == options.httpMethod
  {
    var url := baseUrl + path;
    var finalHeaders := map["Content-Type" := "application/json"] + options.headers.GetOr(map[]);
    var finalHeaders' :=
      if !options.skipAuth && config.getToken.Some? && config.getToken.value.Some? && config.getToken.value.value != ""
      then finalHeaders["Authorization" := "Bearer " + config.getToken.value.value]
      else finalHeaders;
    var finalBody :=
      match options.body
      case Value(v) => if v != JNull && !v.JString? then TextBody(stringify(v)) else if v == JNull then NullBody else TextBody(v.s)
      case Undefined => NoBody
      case Form(f) => FormBody(f);
    var request := Request(url, options.httpMethod, finalHeaders', finalBody);
    match send(request)
    case None => Exchange(request, Err(ApiError(NetworkErrorMessage, 0, None)), false)
    case Some(response) =>
      var contentType := if response.contentType.Some? then response.contentType.value else "";
      var data :=
        if Contains(contentType, "application/json") then (if response.json.Some? then response.json.value else JNull)
        else (if response.text.Some? then JString(response.text.value) else JNull);
      if !(200 <= response.status <= 299) then
        var unauthorized := response.status == 401 && config.hasOnUnauthorized;
        var message :=
          if data.JObject? && Lookup(data.fields, "message").Some? && Lookup(data.fields, "message").value.JString?
          then Lookup(data.fields, "message").value.s
          else "Request failed with status " + IntToString(response.status);
        Exchange(request, Err(ApiError(message, response.status, Some(data))), unauthorized)
      else Exchange(request, Ok(data), false)
  }

  /** Both copies send the same URL, method, headers and body. */
  lemma SameRequest(config: ClientConfig, baseUrl: string, path: string, options: FetchOptions,
                    stringify: JsonValue -> string, send: Request -> Option<Response>)
    ensures FetchJson(config, baseUrl, path, options, stringify, send).request == Fetch(config, baseUrl, path, options, stringify, send).request
  {
    var headers := map["Content-Type" := "application/json"] + options.headers.GetOr(map[]);
    var withToken :=
      if !options.skipAuth && config.getToken.Some? && config.getToken.value.Some? && config.getToken.value.value != ""
      then headers["Authorization" := "Bearer " + config.getToken.value.value]
      else headers;
    assert withToken == BuildHeaders(config, options.headers, options.skipAuth);
  }

  /** Both copies make the same request, reach the same outcome and call onUnauthorized alike, on every input. */
  lemma SameAsApiClient(config: ClientConfig, baseUrl: string, path: string, options: FetchOptions,
                        stringify: JsonValue -> string, send: Request -> Option<Response>)
    ensures FetchJson(config, baseUrl, path, options, stringify, send) == Fetch(config, baseUrl, path, options, stringify, send)
  {
    SameRequest(config, baseUrl, path, options, stringify, send);
    var shared := Fetch(config, baseUrl, path, options, stringify, send);
    if send(shared.request).Some? {
      var response := send(shared.request).value;
      assert ParseResponse(response) == if Contains(response.contentType.GetOr(""), "application/json") then response.json.GetOr(JNull)
                                        else if response.text.Some? then JString(response.text.value) else JNull;
    }
  }
}
