/** A value that may be missing: a Python `None` or an absent selection. */
module Wrappers {
  datatype Option<+T> = None | Some(value: T)
}
