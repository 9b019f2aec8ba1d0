/** Small failure-carrying datatypes shared by the other modules. */
module Wrappers {

  /** A value that may be absent (a nullable column, a missing session, a failed `find`). */
  datatype Option<+T> = None | Some(value: T)

  /** The result of an action that returns nothing on success and throws on failure. */
  datatype Outcome<+E> = Pass | Fail(error: E)
}
