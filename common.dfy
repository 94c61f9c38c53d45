/** Small failure-carrying datatypes shared by the page models. */
module Common {

  /** A value that may be absent: a missing browser-storage key, an optional JSON field. */
  datatype Option<+T> = None | Some(value: T)

  /** The outcome of a validation: the accepted value or the message shown to the user. */
  datatype Result<+R, +E> = Success(value: R) | Failure(error: E)
}
