/** The Go zero-or-one idioms (a nil pointer, a comma-ok result) as a value. */
module Wrappers {
  datatype Option<+T> = None | Some(value: T)
}
