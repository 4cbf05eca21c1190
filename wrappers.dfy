/** Option and Result, used for Java's nullable references and thrown exceptions. */
module Wrappers {

  /** A nullable reference: None stands for Java's null. */
  datatype Option<+T> = None | Some(value: T)

  /** The outcome of a Java call: it returns a value or throws. */
  datatype Result<+T, +E> = Success(value: T) | Failure(error: E)
}
