/** The `Result` type of frontend/src/shared/lib/result.ts and its eliminators. */
module Results {
  import opened Options
  import opened JsValues

  /** `{ success: true, data }` or `{ success: false, error }`. */
  datatype Result<T, E> = Ok(data: T) | Err(error: E) {
    predicate Success() { Ok? }
  }

  /** `match(result, onSuccess, onError)`. */
  function Match<T, E, R>(r: Result<T, E>, onSuccess: T -> R, onError: E -> R): (v: R)
    ensures r.Ok? ==> v == onSuccess(r.data)
    ensures r.Err? ==> v == onError(r.error)
  {
    match r
    case Ok(d) => onSuccess(d)
    case Err(e) => onError(e)
  }

  /** `unwrap(result)`: the data, or `undefined` for a failure. */
  function Unwrap<T, E>(r: Result<T, E>): (u: Option<T>)
    ensures u.Some? <==> r.Success()
    ensures u == Match(r, d => Some(d), e => None)
  {
    if r.Ok? then Some(r.data) else None
  }

  /** `unwrapOr(result, defaultValue)`. */
  function UnwrapOr<T, E>(r: Result<T, E>, defaultValue: T): (v: T)
    ensures v == Unwrap(r).GetOr(defaultValue)
    ensures v == Match(r, d => d, e => defaultValue)
  {
    if r.Ok? then r.data else defaultValue
  }

  /** `String(v)` for a value that is not an `Error`. */
  function JsString(v: JsValue): string {
    match v
    case StringValue(s) => s
    case OtherValue(s) => s
    case _ => "[object Object]"
  }

  /** `unwrapOrThrow(result)`: the data, or a throw of the error wrapped in an
      `Error` unless it is one already. */
  function UnwrapOrThrow<T>(r: Result<T, JsValue>): (c: Completion<T>)
    ensures c.Normal? <==> r.Success()
    ensures c.Normal? ==> Unwrap(r) == Some(c.value)
    ensures c.Abrupt? ==> IsErrorInstance(c.thrown)
    ensures r.Err? && IsErrorInstance(r.error) ==> c == Abrupt(r.error)
  {
    match r
    case Ok(d) => Normal(d)
    case Err(e) => Abrupt(if IsErrorInstance(e) then e else ErrorValue(JsString(e), None))
  }

  /** `unwrapOrThrowWith(result, createError)`. */
  function UnwrapOrThrowWith<T, E>(r: Result<T, E>, createError: E -> JsValue): (c: Completion<T>)
    ensures c.Normal? <==> r.Success()
    ensures c.Normal? ==> Unwrap(r) == Some(c.value)
    ensures r.Err? ==> c.thrown == createError(r.error)
  {
    match r
    case Ok(d) => Normal(d)
    case Err(e) => Abrupt(createError(e))
  }

  /** Throwing and catching back loses nothing on success and keeps an `Error`
      failure as it was. */
  lemma UnwrapOrThrowKeepsErrors<T>(r: Result<T, JsValue>)
    requires r.Ok? || IsErrorInstance(r.error)
    ensures match UnwrapOrThrow(r)
            case Normal(d) => Ok(d) == r
            case Abrupt(x) => Err(x) == r
  {
  }
}
