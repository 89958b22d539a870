/** The result shape shared by every function that may have nothing to return. */
module Wrappers {
  datatype Option<+T> = None | Some(value: T)
}
