/** The shape of a value that may be missing, shared by every component. */
module Wrappers {

  datatype Option<+T> = None | Some(value: T)
}
