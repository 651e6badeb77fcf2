/** The JavaScript values the frontend throws, catches and classifies: the
    `AppError` class family of frontend/src/shared/lib/errors.ts as record values,
    plain `Error`s, ordinary objects, strings and other primitives. */
module JsValues {
  import opened Options

  /** The body of an error `Response` as `response.json()` yields it: not JSON at
      all, or an object whose `error` and `message` entries are strings when present. */
  datatype JsonBody = NotJson | JsonObject(error: Option<string>, message: Option<string>)

  /** A fetch `Response` carried by a failed request. */
  datatype HttpResponse = HttpResponse(status: nat, body: JsonBody)

  const API_ERROR := "API_ERROR"
  const NETWORK_ERROR := "NETWORK_ERROR"
  const VALIDATION_ERROR := "VALIDATION_ERROR"
  const AUTHENTICATION_ERROR := "AUTHENTICATION_ERROR"
  const AUTHORIZATION_ERROR := "AUTHORIZATION_ERROR"
  const NOT_FOUND_ERROR := "NOT_FOUND_ERROR"
  const UNKNOWN_ERROR := "UNKNOWN_ERROR"

  /** Default messages of the argument-less constructors. */
  const DEFAULT_AUTHENTICATION_MESSAGE := "認証に失敗しました"
  const DEFAULT_AUTHORIZATION_MESSAGE := "アクセス権限がありません"
  const DEFAULT_NOT_FOUND_MESSAGE := "リソースが見つかりません"

  /** An instance of `AppError` or one of its subclasses. */
  datatype AppError =
    | AppError(message: string, code: Option<string>, statusCode: Option<int>)
    | ApiError(message: string, apiStatus: int, response: Option<HttpResponse>, responseData: Option<JsonBody>)
    | NetworkError(message: string)
    | ValidationError(message: string)
    | AuthenticationError(message: string)
    | AuthorizationError(message: string)
    | NotFoundError(message: string)
  {
    /** The `code` field each constructor sets. */
    function Code(): (c: Option<string>)
      ensures !AppError? ==> c.Some?
    {
      match this
      case AppError(_, c, _) => c
      case ApiError(_, _, _, _) => Some(API_ERROR)
      case NetworkError(_) => Some(NETWORK_ERROR)
      case ValidationError(_) => Some(VALIDATION_ERROR)
      case AuthenticationError(_) => Some(AUTHENTICATION_ERROR)
      case AuthorizationError(_) => Some(AUTHORIZATION_ERROR)
      case NotFoundError(_) => Some(NOT_FOUND_ERROR)
    }

    /** The `statusCode` field each constructor sets. */
    function Status(): Option<int> {
      match this
      case AppError(_, _, s) => s
      case ApiError(_, s, _, _) => Some(s)
      case NetworkError(_) => None
      case ValidationError(_) => Some(400)
      case AuthenticationError(_) => Some(401)
      case AuthorizationError(_) => Some(403)
      case NotFoundError(_) => Some(404)
    }
  }

  /** Any value a `catch` clause can receive. */
  datatype JsValue =
    | AppErrorValue(err: AppError)
      /** An `Error` that is not an `AppError`; it may carry a `response` property. */
    | ErrorValue(message: string, response: Option<HttpResponse>)
      /** A non-`Error` object; `messageField` is its `message` property when that is a string. */
    | ObjectValue(response: Option<HttpResponse>, messageField: Option<string>)
    | StringValue(text: string)
      /** `null`, `undefined`, a number or a boolean, with what `String(v)` gives. */
    | OtherValue(text: string)

  /** `v instanceof Error`. */
  predicate IsErrorInstance(v: JsValue) {
    v.AppErrorValue? || v.ErrorValue?
  }

  /** `v && typeof v === 'object'`. */
  predicate IsObject(v: JsValue) {
    v.AppErrorValue? || v.ErrorValue? || v.ObjectValue?
  }

  /** `'response' in v && v.response instanceof Response`. */
  function ResponseOf(v: JsValue): Option<HttpResponse> {
    match v
    case AppErrorValue(e) => if e.ApiError? then e.response else None
    case ErrorValue(_, r) => r
    case ObjectValue(r, _) => r
    case _ => None
  }

  /** `'message' in v && typeof v.message === 'string'`. */
  function StringMessageOf(v: JsValue): (m: Option<string>)
    ensures IsErrorInstance(v) ==> m.Some?
  {
    match v
    case AppErrorValue(e) => Some(e.message)
    case ErrorValue(m, _) => Some(m)
    case ObjectValue(_, m) => m
    case _ => None
  }

  /** `v instanceof Error ? v.message : fallback`, the message every hook shows. */
  function ErrorMessageOr(v: JsValue, fallback: string): (m: string)
    ensures IsErrorInstance(v) ==> Some(m) == StringMessageOf(v)
    ensures !IsErrorInstance(v) ==> m == fallback
  {
    match v
    case AppErrorValue(e) => e.message
    case ErrorValue(m, _) => m
    case _ => fallback
  }

  /** `s || null` for a string that may be missing: the empty string is falsy. */
  function OrNull(s: Option<string>): (r: Option<string>)
    ensures r.Some? ==> r.value != [] && r == s
    ensures s.Some? && s.value != [] ==> r == s
  {
    if s.Some? && s.value != [] then s else None
  }

  /** How a call ended: it returned a value or threw one. */
  datatype Completion<T> = Normal(value: T) | Abrupt(thrown: JsValue)
}
