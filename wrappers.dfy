/** The optional value used where the C code returns a sentinel (an index or NULL). */
module Wrappers {
  datatype Option<+T> = None | Some(value: T)
}
