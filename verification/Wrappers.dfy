/** What several parts of the model share. */
module Wrappers {

  /** A value that may be absent: JavaScript's null and undefined, Rust's Option. */
  datatype Option<T> = None | Some(value: T)
}
