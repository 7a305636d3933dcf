/** A value that may be missing: Rust's `Option`. */
module Wrappers {
  datatype Option<+T> = None | Some(value: T)
}
