/** Option and Result, the two wrappers the parser's outputs are built from. */
module Wrappers {

  /** An optional value; a quad slot of a layer is one of these. */
  datatype Option<+T> = None | Some(value: T)

  /** Either a value or an error. */
  datatype Result<+R, +E> = Success(value: R) | Failure(error: E)
}
