/** The server-side fetchers of frontend/src/lib/api/server.ts: unlike the
    client wrappers they throw a `ServerApiError` on failure. */
module ServerApi {
  import opened Options
  import opened JsValues
  import ApiClient

  /** `new ServerApiError(message, status?, response?)`. */
  datatype ServerApiError = ServerApiError(message: string, status: Option<nat>, response: Option<HttpResponse>)

  /** `handleServerApiError(error)`: the same classification as the client's, but
      with no status when no response came back and no network case. */
  function HandleServerApiError(v: JsValue): (e: ServerApiError)
    ensures e.status.Some? <==> IsObject(v) && ResponseOf(v).Some?
    ensures e.status.Some? ==> (e.status.value == ResponseOf(v).value.status &&
                                e.message == ApiClient.ResponseErrorMessage(ResponseOf(v).value))
    ensures e.status.Some? ==> e.status.value == ApiClient.HandleApiError(v).apiStatus
    ensures e.message == ApiClient.HandleApiError(v).message
    ensures e.response == ApiClient.HandleApiError(v).response
  {
    if IsObject(v) && ResponseOf(v).Some? then
      var resp := ResponseOf(v).value;
      ServerApiError(ApiClient.ResponseErrorMessage(resp), Some(resp.status), Some(resp))
    else if IsObject(v) && StringMessageOf(v).Some? then
      ServerApiError(StringMessageOf(v).value, None, None)
    else if IsErrorInstance(v) then
      ServerApiError(ErrorMessageOr(v, ""), None, None)
    else
      ServerApiError("Unknown error occurred", None, None)
  }

  /** The result of `getProjects`, `getProjectDetail`, `getTrashedProjects` and
      `getTemplates`: the data (possibly absent), or the error they throw. */
  datatype ServerOutcome<T> = Returned(data: Option<T>) | Raised(err: ServerApiError)

  /** One server fetch: throws exactly when openapi-fetch reports an error. */
  function ServerGet<T>(f: ApiClient.FetchResult<T>): (o: ServerOutcome<T>)
    ensures o.Raised? <==> f.error.Some?
    ensures o.Raised? ==> o.err == HandleServerApiError(f.error.value)
    ensures o.Returned? ==> o.data == f.data
  {
    if f.error.Some? then Raised(HandleServerApiError(f.error.value)) else Returned(f.data)
  }
}
