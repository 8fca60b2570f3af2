/** Optional values (Java's nullable references and `Optional`) and results of
    operations that either produce a value or fail with an error. */
module Outcomes {

  /** A value that may be absent: `None` stands for Java's `null` or an empty `Optional`. */
  datatype Option<T> = None | Some(value: T)

  /** The outcome of an operation that may throw: `Failure` carries the exception. */
  datatype Result<T, E> = Success(value: T) | Failure(error: E)
}
