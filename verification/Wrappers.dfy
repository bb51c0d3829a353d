/** A value that may be missing, as Python's None says it. */
module Wrappers {
  datatype Option<+T> = None | Some(value: T)
}
