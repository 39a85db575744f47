/** A value that may be absent: Rust's `Option`, shared by every module of the bridge. */
module Wrappers {
  datatype Option<+T> = None | Some(value: T)
}
