/** Option stands in for a pandas NaN cell and for a call that raised. */
module Wrappers {

  datatype Option<+T> = None | Some(value: T)
}
