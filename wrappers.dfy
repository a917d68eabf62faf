/** The optional value used throughout the drawpad (Rust's `Option`). */
module Wrappers {
  datatype Option<+T> = None | Some(value: T)
}
