/** The Option datatype used wherever the source has `null`, `undefined` or a missing value. */
module Wrappers {

  datatype Option<+T> = None | Some(value: T)
}
