/** A value that may be absent: Rust's and Python's optional results. */
module Wrappers {
  datatype Option<+T> = None | Some(value: T)
}
