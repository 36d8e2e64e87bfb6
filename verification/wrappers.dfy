/** The two "maybe" shapes the model uses in place of JavaScript's absent values. */
module Wrappers {

  /** A value that may be absent: JavaScript's `undefined`, or a property the payload omits. */
  datatype Option<+T> = None | Some(value: T)

  /** Either a value or an error; used where the script yields a string in place of an object. */
  datatype Result<+T, +E> = Success(value: T) | Failure(error: E)
}
