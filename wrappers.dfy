module Wrappers {
  /** A value that may be absent: an unset field, a `nullptr`. */
  datatype Option<+T> = None | Some(value: T)
}
