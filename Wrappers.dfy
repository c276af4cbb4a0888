/** The optional value used for `null`-able state and for the order store. */
module Wrappers {
  datatype Option<+T> = None | Some(value: T)
}
