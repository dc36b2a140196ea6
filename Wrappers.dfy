/** The usual Some/None datatype; None stands for Python's StopIteration. */
module Wrappers {
  datatype Option<+T> = None | Some(value: T)
}
