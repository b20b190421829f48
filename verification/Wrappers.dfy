/** Shared wrapper types. */
module Wrappers {
  datatype Option<+T> = None | Some(value: T)
}
