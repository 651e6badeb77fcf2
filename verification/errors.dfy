/** Error normalisation and user-facing messages of frontend/src/shared/lib/errors.ts. */
module Errors {
  import opened Options
  import opened JsValues
  import opened Results

  const UNEXPECTED_ERROR_MESSAGE := "予期しないエラーが発生しました"

  const BAD_REQUEST_TEXT := "リクエストが不正です。入力内容を確認してください。"
  const UNAUTHENTICATED_TEXT := "認証に失敗しました。再度ログインしてください。"
  const FORBIDDEN_TEXT := "アクセス権限がありません。"
  const NOT_FOUND_TEXT := "リソースが見つかりません。"
  const SERVER_ERROR_TEXT := "サーバーエラーが発生しました。しばらくしてから再度お試しください。"
  const GENERIC_ERROR_TEXT := "エラーが発生しました。"
  const NETWORK_TEXT := "ネットワークエラーが発生しました。インターネット接続を確認してください。"
  const INVALID_INPUT_TEXT := "入力内容に誤りがあります。"
  const UNEXPECTED_TEXT := "予期しないエラーが発生しました。"

  /** `toAppError(error)`: an `AppError` is kept, anything else becomes a plain
      `AppError` with code `UNKNOWN_ERROR` and no status. */
  function ToAppError(v: JsValue): (e: AppError)
    ensures v.AppErrorValue? ==> e == v.err
    ensures !v.AppErrorValue? ==> e.AppError? && e.Code() == Some(UNKNOWN_ERROR) && e.Status().None?
    ensures IsErrorInstance(v) ==> Some(e.message) == StringMessageOf(v)
    ensures v.StringValue? ==> e.message == v.text
    ensures !IsErrorInstance(v) && !v.StringValue? ==> e.message == UNEXPECTED_ERROR_MESSAGE
  {
    match v
    case AppErrorValue(e) => e
    case ErrorValue(m, _) => AppError(m, Some(UNKNOWN_ERROR), None)
    case StringValue(s) => AppError(s, Some(UNKNOWN_ERROR), None)
    case _ => AppError(UNEXPECTED_ERROR_MESSAGE, Some(UNKNOWN_ERROR), None)
  }

  /** Normalising an already normalised error changes nothing. */
  lemma ToAppErrorIdempotent(v: JsValue)
    ensures ToAppError(AppErrorValue(ToAppError(v))) == ToAppError(v)
  {
  }

  /** `message || fallback`. */
  function OrIfEmpty(message: string, fallback: string): (m: string)
    ensures m != [] <== fallback != []
    ensures message != [] ==> m == message
  {
    if message != [] then message else fallback
  }

  /** `getUserFriendlyErrorMessage(error)`, chosen by the normalised error's code. */
  function FriendlyMessage(v: JsValue): (m: string)
    ensures m != []
  {
    var e := ToAppError(v);
    var code := e.Code();
    if code == Some(API_ERROR) then
      if e.ApiError? then
        if e.apiStatus == 400 then BAD_REQUEST_TEXT
        else if e.apiStatus == 401 then UNAUTHENTICATED_TEXT
        else if e.apiStatus == 403 then FORBIDDEN_TEXT
        else if e.apiStatus == 404 then NOT_FOUND_TEXT
        else if e.apiStatus == 500 then SERVER_ERROR_TEXT
        else OrIfEmpty(e.message, GENERIC_ERROR_TEXT)
      else OrIfEmpty(e.message, GENERIC_ERROR_TEXT)
    else if code == Some(NETWORK_ERROR) then NETWORK_TEXT
    else if code == Some(VALIDATION_ERROR) then OrIfEmpty(e.message, INVALID_INPUT_TEXT)
    else if code == Some(AUTHENTICATION_ERROR) then UNAUTHENTICATED_TEXT
    else if code == Some(AUTHORIZATION_ERROR) then FORBIDDEN_TEXT
    else if code == Some(NOT_FOUND_ERROR) then NOT_FOUND_TEXT
    else OrIfEmpty(e.message, UNEXPECTED_TEXT)
  }

  /** The network, authentication, authorization and not-found texts are fixed:
      the error's own message never reaches the user. */
  lemma FixedTextIgnoresMessage(e: AppError, other: string)
    requires e.Code() in {Some(NETWORK_ERROR), Some(AUTHENTICATION_ERROR), Some(AUTHORIZATION_ERROR), Some(NOT_FOUND_ERROR)}
    ensures FriendlyMessage(AppErrorValue(e)) == FriendlyMessage(AppErrorValue(e.(message := other)))
  {
  }

  /** An `ApiError` with status 401, 403 or 404 reads exactly like the dedicated
      subclass for that status, whatever either message says. */
  lemma StatusTextsAgreeWithSubclasses(m1: string, m2: string, resp: Option<HttpResponse>, data: Option<JsonBody>)
    ensures FriendlyMessage(AppErrorValue(ApiError(m1, 401, resp, data)))
         == FriendlyMessage(AppErrorValue(AuthenticationError(m2)))
    ensures FriendlyMessage(AppErrorValue(ApiError(m1, 403, resp, data)))
         == FriendlyMessage(AppErrorValue(AuthorizationError(m2)))
    ensures FriendlyMessage(AppErrorValue(ApiError(m1, 404, resp, data)))
         == FriendlyMessage(AppErrorValue(NotFoundError(m2)))
  {
  }

  /** A thrown value that is not an `Error` reaches the user as its own text when
      it is a non-empty string, and as the generic fallback otherwise. */
  lemma NonErrorMessages(v: JsValue)
    requires !IsErrorInstance(v)
    ensures v.StringValue? && v.text != [] ==> FriendlyMessage(v) == v.text
    ensures !(v.StringValue? && v.text != []) ==> FriendlyMessage(v) in {UNEXPECTED_ERROR_MESSAGE, UNEXPECTED_TEXT}
  {
  }

  /** `errorToResult(error)`: always a failure carrying the normalised error. */
  function ErrorToResult<T>(v: JsValue): (r: Result<T, AppError>)
    ensures !r.Success()
    ensures r.error == ToAppError(v)
  {
    Err(ToAppError(v))
  }

  /** `toResult(promise)`: settles to `Ok` exactly when the promise fulfils. */
  function ToResult<T>(c: Completion<T>): (r: Result<T, AppError>)
    ensures r.Success() <==> c.Normal?
    ensures r.Success() ==> r.data == c.value
    ensures c.Abrupt? ==> r.error == ToAppError(c.thrown)
  {
    match c
    case Normal(d) => Ok(d)
    case Abrupt(x) => ErrorToResult(x)
  }
}
