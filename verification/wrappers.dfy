/** A value that may be absent: Python's `None` next to a value of type T. */
module Wrappers {
  datatype Option<+T> = None | Some(value: T)
}
