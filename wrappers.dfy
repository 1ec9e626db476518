/** Small failure-carrying datatypes shared by the two screens. */
module Wrappers {

  /** A value that may be absent (JavaScript `undefined`/`null`). */
  datatype Option<+T> = None | Some(value: T)

  /** The answer of a backend call that returns only `{ error }`. */
  datatype Outcome = Ok | Err
}
