/** Rust's `Option`, used for `Error::source` and the optional key list of a `Data`. */
module Wrappers {

  datatype Option<+T> = None | Some(value: T)
}
