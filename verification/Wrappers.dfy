/** The optional value used for nullable columns and pointers. */
module Wrappers {
  datatype Option<+T> = None | Some(value: T)
}
