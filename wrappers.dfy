/** The optional value returned by a reader that may reject its input. */
module Wrappers {

  datatype Option<+T> = None | Some(value: T)
}
