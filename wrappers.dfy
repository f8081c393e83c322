/** The optional value used for Python's `None`-or-something parameters and fields. */
module Wrappers {

  datatype Option<+T> = None | Some(value: T)
}
