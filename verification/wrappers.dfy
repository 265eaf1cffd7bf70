/** The optional value used for Python's `None`-or-value fields and for
    conversions that can fail. */
module Wrappers {
  datatype Option<+T> = None | Some(value: T)
}
