/** Shared vocabulary of the rate limiter model: optional values, results
    standing in for raised errors, and positive integers. */
module Common {

  datatype Option<+T> = None | Some(value: T)

  /** Success carries the value an operation returns; Failure the error it raises. */
  datatype Result<+T, +E> = Success(value: T) | Failure(error: E)

  /** A strictly positive integer: thresholds, intervals and increments. */
  type Pos = n: int | n > 0 witness 1

  function Min(a: int, b: int): int
  {
    if a <= b then a else b
  }
}
