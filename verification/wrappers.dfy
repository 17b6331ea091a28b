/** An optional value, and a value or the error raised instead; shared by the other modules. */
module Wrappers {

  /** A value that may be absent (Python's `None`). */
  datatype Option<+T> = None | Some(value: T)

  /** A value, or the exception raised instead of producing it. */
  datatype Result<+T> = Success(value: T) | Failure(error: string)
}
