/**
 * Values shared by every part of the hotel-manager model: optional values
 * (Java `null`, JavaScript `undefined`/`null`) and outcomes that may fail.
 */
module Common {

  /** A value that may be absent. */
  datatype Option<T> = None | Some(value: T) {
    /** The value, or `default` when absent. */
    function GetOr(default: T): T {
      if Some? then value else default
    }
  }

  /** An operation that either produces a value or fails with an error. */
  datatype Result<T, E> = Ok(value: T) | Err(error: E)

  function Min(a: int, b: int): int {
    if a <= b then a else b
  }

  function Max(a: int, b: int): int {
    if a >= b then a else b
  }
}
