/** The option and result types shared by the rest of the model. */
module Wrappers {

  /** An optional value; `None` also stands for a Java `null` reference. */
  datatype Option<+T> = None | Some(value: T)

  /** The outcome of an operation that may throw. */
  datatype Result<+R, +E> = Success(value: R) | Failure(error: E)

  /** The unchecked exceptions the model lets escape: from the validating constructors, and from an executor that was shut down. */
  datatype JavaException = NullPointerException | IllegalArgumentException | RejectedExecutionException
}
