/** The optional value used where the source has a value that may be `undefined`. */
module Wrappers {

  datatype Option<+T> = None | Some(value: T)
}
