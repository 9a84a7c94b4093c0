// Shared wrapper types used by every module of the regression model.

module Common {
  /** An optional value: Python's `None` or a value. */
  datatype Option<T> = None | Some(value: T)

  /** The value of a computation that may raise instead; `Err` carries the exception's text. */
  datatype Result<T> = Ok(value: T) | Err(error: string)

  /** No element occurs twice. */
  predicate Distinct<T(==)>(s: seq<T>) {
    forall i, k | 0 <= i < k < |s| :: s[i] != s[k]
  }
}
