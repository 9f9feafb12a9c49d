/** The usual optional-value datatype, standing for Python's `None`. */
module Wrappers {
  datatype Option<+T> = None | Some(value: T)
}
