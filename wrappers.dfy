/** Rust's Option, used for optional arguments and fallible lookups. */
module Wrappers {
  datatype Option<+T> = None | Some(value: T)
}
