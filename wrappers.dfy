/** Rust's `Option`, the only failure-carrying type the model needs. */
module Wrappers {
  datatype Option<+T> = None | Some(value: T)
}
