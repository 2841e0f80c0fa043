/** The result of a lookup or conversion that can miss. */
module Wrappers {
  datatype Option<+T> = None | Some(value: T)
}
