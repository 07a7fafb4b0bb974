/** A value that may be absent: Python's `None`, or SQL's `NULL` in a column. */
module Wrappers {

  datatype Option<+T> = None | Some(value: T)
}
