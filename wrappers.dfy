/** The optional value used for JavaScript's NaN and for a thrown TypeError. */
module Wrappers {
  datatype Option<+T> = None | Some(value: T)
}
