/** The optional value used for Python's `None` and for end-of-stream. */
module Wrappers {
  datatype Option<+T> = None | Some(value: T)
}
