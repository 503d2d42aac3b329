/** Optional values and results with an error, as used throughout the model. */
module Results {

  /** `None` stands for JavaScript's `undefined`/`null` where a value may be missing. */
  datatype Option<+T> = None | Some(value: T)

  /** The outcome of an operation that may raise a TypeError. */
  datatype Result<+T, +E> = Success(value: T) | Failure(error: E)

  /** `x || dflt` for an optional object: the value, or a fresh default. */
  function GetOr<T>(o: Option<T>, dflt: T): T
  {
    match o
    case Some(v) => v
    case None => dflt
  }
}
