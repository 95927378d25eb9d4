/** Small failure-carrying datatypes shared by the other modules. */
module Wrappers {

  /** A value that may be absent; stands for Go's nil pointers and nil slices. */
  datatype Option<+T> = None | Some(value: T)

  /** Go's `error` value, identified by its message text. */
  datatype Error = Error(text: string)

  /** The result of a call that returns either a value or an error. */
  datatype Result<+T> = Success(value: T) | Failure(error: Error)
}
