/** The request wrappers of frontend/src/shared/lib/api/client.ts: every request
    resolves to a `Result`, failures normalised to an `ApiError`. */
module ApiClient {
  import opened Options
  import opened Text
  import opened JsValues
  import opened Results

  /** The headers the client is created with: `Cookie` and `X-CSRFToken`, each
      present or absent. */
  datatype Headers = Headers(cookie: Option<string>, csrfToken: Option<string>)

  /** `getApiClient()`: builds the forwarded cookie line from the `sessionid` and
      `csrftoken` cookies of the incoming request. */
  method GetApiClientHeaders(sessionId: Option<string>, csrfToken: Option<string>) returns (h: Headers)
    ensures h.csrfToken == csrfToken
    ensures h.cookie.Some? <==> sessionId.Some? || csrfToken.Some?
    ensures sessionId.Some? && csrfToken.None? ==> h.cookie == Some("sessionid=" + sessionId.value)
    ensures sessionId.None? && csrfToken.Some? ==> h.cookie == Some("csrftoken=" + csrfToken.value)
    ensures sessionId.Some? && csrfToken.Some?
         ==> h.cookie == Some("sessionid=" + sessionId.value + "; csrftoken=" + csrfToken.value)
  {
    var cookieParts: seq<string> := [];
    if sessionId.Some? {
      cookieParts := cookieParts + ["sessionid=" + sessionId.value];
    }
    if csrfToken.Some? {
      cookieParts := cookieParts + ["csrftoken=" + csrfToken.value];
    }
    var cookieHeader := Join(cookieParts, "; ");
    if sessionId.Some? && csrfToken.Some? {
      var a, b := "sessionid=" + sessionId.value, "csrftoken=" + csrfToken.value;
      assert cookieParts == [a, b] && cookieParts[1..] == [b];
      assert Join([b], "; ") == b;
      assert cookieHeader == a + "; " + b;
      assert a + "; " + b == "sessionid=" + sessionId.value + "; csrftoken=" + csrfToken.value;
    }
    assert cookieParts != [] ==> |cookieHeader| >= |cookieParts[0]| > 0;
    h := Headers(if cookieHeader != "" then Some(cookieHeader) else None,
                 if csrfToken.Some? then Some(csrfToken.value) else None);
  }

  /** The message synthesised when the error body carries none. */
  function StatusFailureMessage(status: nat): (m: string)
    ensures StartsWith(m, "API request failed with status ")
  {
    "API request failed with status " + NatToString(status)
  }

  /** `errorData.error || errorData.message || ...`, with the synthesised message
      also used when the body is not JSON. */
  function ResponseErrorMessage(resp: HttpResponse): (m: string)
    ensures m != []
    ensures resp.body.JsonObject? && resp.body.error.Some? && resp.body.error.value != [] ==> m == resp.body.error.value
    ensures resp.body.JsonObject? && (resp.body.error.None? || resp.body.error.value == [])
            && resp.body.message.Some? && resp.body.message.value != []
            ==> m == resp.body.message.value
    ensures resp.body.JsonObject? && (resp.body.error.None? || resp.body.error.value == [])
            && (resp.body.message.None? || resp.body.message.value == [])
            ==> m == StatusFailureMessage(resp.status)
    ensures resp.body.NotJson? ==> m == StatusFailureMessage(resp.status)
  {
    match resp.body
    case NotJson => StatusFailureMessage(resp.status)
    case JsonObject(e, msg) =>
      if e.Some? && e.value != [] then e.value
      else if msg.Some? && msg.value != [] then msg.value
      else StatusFailureMessage(resp.status)
  }

  /** `handleApiError(error)`.  An `Error` always has a string `message`, so the
      `instanceof Error` test is reached only by values it rejects: no failure is
      ever reported as a `NetworkError`. */
  function HandleApiError(v: JsValue): (e: AppError)
    ensures e.ApiError? && !e.NetworkError?
    ensures ResponseOf(v).Some? && IsObject(v)
         ==> (e.apiStatus == ResponseOf(v).value.status && e.response == ResponseOf(v) &&
              e.message == ResponseErrorMessage(ResponseOf(v).value))
    ensures (ResponseOf(v).None? || !IsObject(v)) && IsObject(v) && StringMessageOf(v).Some?
         ==> e == ApiError(StringMessageOf(v).value, 500, None, None)
    ensures IsErrorInstance(v) && ResponseOf(v).None? ==> e.message == StringMessageOf(v).value && e.apiStatus == 500
    ensures !IsObject(v) ==> e == ApiError("Unknown error occurred", 500, None, None)
  {
    if IsObject(v) && ResponseOf(v).Some? then
      var resp := ResponseOf(v).value;
      match resp.body
      case NotJson => ApiError(StatusFailureMessage(resp.status), resp.status, Some(resp), None)
      case JsonObject(_, _) => ApiError(ResponseErrorMessage(resp), resp.status, Some(resp), Some(resp.body))
    else if IsObject(v) && StringMessageOf(v).Some? then
      ApiError(StringMessageOf(v).value, 500, None, None)
    else if IsErrorInstance(v) then
      var message := ErrorMessageOr(v, "");
      if Contains(message, "fetch") || Contains(message, "network") then NetworkError(message)
      else ApiError(message, 500, None, None)
    else
      ApiError("Unknown error occurred", 500, None, None)
  }

  /** What openapi-fetch resolves to: `data` and `error`, each falsy or not. */
  datatype FetchResult<T> = FetchResult(data: Option<T>, error: Option<JsValue>)

  const NO_DATA_MESSAGE := "No data received from API"

  /** `apiGet`, `apiPost` and `apiPatch`: `c` is how building the client and
      awaiting the request ended. */
  function ApiRequest<T>(c: Completion<FetchResult<T>>): (r: Result<T, AppError>)
    ensures r.Success() <==> c.Normal? && c.value.error.None? && c.value.data.Some?
    ensures r.Success() ==> r.data == c.value.data.value
    ensures !r.Success() ==> r.error.ApiError?
    ensures c.Abrupt? ==> r.error == HandleApiError(c.thrown)
    ensures c.Normal? && c.value.error.Some? ==> r.error == HandleApiError(c.value.error.value)
    ensures c.Normal? && c.value.error.None? && c.value.data.None?
         ==> r.error == ApiError(NO_DATA_MESSAGE, 500, None, None)
  {
    match c
    case Abrupt(x) => Err(HandleApiError(x))
    case Normal(FetchResult(data, error)) =>
      if error.Some? then Err(HandleApiError(error.value))
      else if data.None? then Err(ApiError(NO_DATA_MESSAGE, 500, None, None))
      else Ok(data.value)
  }

  /** `apiDelete`: an empty body is a success (`data ?? undefined`). */
  function ApiDelete<T>(c: Completion<FetchResult<T>>): (r: Result<Option<T>, AppError>)
    ensures r.Success() <==> c.Normal? && c.value.error.None?
    ensures r.Success() ==> r.data == c.value.data
    ensures !r.Success() ==> r.error.ApiError?
  {
    match c
    case Abrupt(x) => Err(HandleApiError(x))
    case Normal(FetchResult(data, error)) =>
      if error.Some? then Err(HandleApiError(error.value)) else Ok(data)
  }

  /** A delete differs from the other requests only in accepting an empty body. */
  lemma DeleteAgreesWithRequest<T>(c: Completion<FetchResult<T>>)
    ensures c.Normal? && c.value.data.Some? ==> ApiDelete(c) == Match(ApiRequest(c), d => Ok(Some(d)), e => Err(e))
    ensures !ApiRequest(c).Success() && ApiDelete(c).Success() ==> c.value.data.None?
  {
  }
}
