/** The usual Option datatype, for JavaScript's "value or undefined". */
module Wrappers {
  datatype Option<+T> = None | Some(value: T)
}
