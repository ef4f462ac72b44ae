/** The Option type Rust's `Iterator::next` returns. */
module Wrappers {

  datatype Option<+T> = None | Some(value: T)
}
