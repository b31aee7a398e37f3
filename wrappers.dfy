/** The conventional optional value, used for partial inverses. */
module Wrappers {
  datatype Option<+T> = None | Some(value: T)
}
