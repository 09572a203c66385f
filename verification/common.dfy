/** Shared failure-carrying datatypes.

    The backend signals failure by raising Python exceptions (or FastAPI
    HTTPExceptions). The model returns a Result instead; the error value
    records which exception class would have been raised, since callers of
    the services (the API routes and the tests) dispatch on the class only.
 */
module Common {

  datatype Option<+T> = None | Some(value: T) {
    function GetOr(default: T): T {
      match this
      case Some(v) => v
      case None => default
    }
  }

  /** The exception classes the modelled code raises. */
  datatype Error =
    | ValueError
    | LookupError
    | KeyError
    | PermissionError
    | RuntimeError
    | TypeError
    | Http(status: int)

  datatype Result<+T> = Ok(value: T) | Err(error: Error) {
    predicate IsFailure() {
      Err?
    }

    function PropagateFailure<U>(): Result<U>
      requires Err?
    {
      Err(error)
    }

    function Extract(): T
      requires Ok?
    {
      value
    }
  }

  /** Negates the value of a successful integer result. */
  function Negate(r: Result<int>): Result<int> {
    match r
    case Ok(v) => Ok(-v)
    case Err(e) => Err(e)
  }

  /** Python truthiness of an optional string: None and "" are falsy. */
  predicate Truthy(s: Option<string>) {
    s.Some? && s.value != ""
  }

  /** Python truthiness of an optional integer: None and 0 are falsy. */
  predicate TruthyInt(n: Option<int>) {
    n.Some? && n.value != 0
  }
}
