/** Result types shared by the parser and the tree builder. */
module Wrappers {

  /** A value that may be absent: a parent of the root, a child that is not there. */
  datatype Option<+T> = None | Some(value: T)

  /** The outcome of an operation that throws on bad input: every exception is `Failure`. */
  datatype Result<+T> = Ok(value: T) | Failure
}
