/** Java's `null` and the way a Java call ends, shared by every module of the model. */
module Wrappers {

  /** A value that may be absent: Java's `null` or an empty `Optional`. */
  datatype Option<+T> = None | Some(value: T)

  /** How a Java call ends: it returns a value, or an unchecked
      NullPointerException escapes from it (the source never catches one). */
  datatype Outcome<+T> = Returned(value: T) | NullPointerException
}
