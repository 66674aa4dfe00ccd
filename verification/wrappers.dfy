/** Optional values (Java's null / Optional) and results of operations that may throw. */
module Wrappers {

  /** A value that may be absent: Java's null reference or an empty Optional. */
  datatype Option<+T> = None | Some(value: T)

  /** The outcome of a Java call: a returned value or a thrown exception. */
  datatype Result<+T, +E> = Success(value: T) | Failure(error: E)
}
