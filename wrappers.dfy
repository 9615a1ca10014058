/** The optional value used for results that JavaScript reports as NaN. */
module Wrappers {

  datatype Option<+T> = None | Some(value: T)
}
