/** Option and Result, the null and exception paths of the Kotlin code. */
module Wrappers {

  /** A nullable value: None is Kotlin's null. */
  datatype Option<+T> = None | Some(value: T)

  /** The outcome of an operation that may throw. */
  datatype Result<+R, +E> = Success(value: R) | Failure(error: E)
}
