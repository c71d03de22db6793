/** The optional value used for hit tests and array indexing. */
module Wrappers {
  datatype Option<+T> = None | Some(value: T)
}
