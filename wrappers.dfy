/** Optional value, result and verdict datatypes shared by the model: an
    optional value, the outcome of a computation that may throw, and a
    pass/fail verdict. */
module Wrappers {

  /** An argument or result that may be absent (`undefined` / `null` in the source). */
  datatype Option<+T> = None | Some(value: T)

  /** A value, or the error the resolver throws instead of returning one. */
  datatype Result<+T, +E> = Ok(value: T) | Err(error: E)

  /** A check that either lets the request through or rejects it with an error. */
  datatype Outcome<+E> = Pass | Fail(error: E)
}
