/** The optional value returned by a pool lookup. */
module Wrappers {

  /** A value that may be absent: Go's comma-ok map lookup `v, ok := m[k]`. */
  datatype Option<+T> = None | Some(value: T)
}
