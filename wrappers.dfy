/** The optional value used for results that may be absent (JavaScript's NaN, a missing field). */
module Wrappers {
  datatype Option<+T> = None | Some(value: T)
}
