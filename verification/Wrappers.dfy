module Wrappers {
  /** A value that may be missing, as Go's "value, found" pairs and nil results. */
  datatype Option<+T> = None | Some(value: T)
}
