/** The optional value used for pandas' NaN: `None` is an undefined indicator value. */
module Wrappers {
  datatype Option<+T> = None | Some(value: T)
}
