/** JavaScript values and the outcome shapes the rest of the model shares. */
module Js {

  datatype Option<+T> = None | Some(value: T)

  /** The JSON-like values a request body, a token claim or an environment
      variable can hold. Numbers are integers here (floating point and NaN
      are not modelled). */
  datatype JsValue = Undefined | Null | Bool(b: bool) | Num(n: int) | Str(s: string)

  /** JavaScript truthiness: `if (v)` takes the branch exactly when this holds. */
  predicate Truthy(v: JsValue)
  {
    match v
    case Bool(b) => b
    case Num(n) => n != 0
    case Str(s) => s != ""
    case _ => false
  }

  /** `!x` for a value of type `string | undefined`, such as `process.env.JWT_SECRET`. */
  predicate Missing(x: Option<string>)
  {
    x.None? || x.value == ""
  }

  /** The result of one awaited API call on the client: the response data, or
      the error the call rejected with. */
  datatype ApiResult<+T> = Ok(data: T) | Failed(error: string)

  /** What an async store action does for its caller: resolves, or rejects
      with an error (a rethrow passes on the API call's error unchanged). */
  datatype Outcome = Resolved | Rejected(error: string)

  /** The outcome of an action that awaits one API call and rethrows its error. */
  function OutcomeOf<T>(response: ApiResult<T>): Outcome
  {
    match response
    case Ok(_) => Resolved
    case Failed(e) => Rejected(e)
  }
}
