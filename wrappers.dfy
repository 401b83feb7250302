/** The optional value used for the source's `None` returns and optional fields. */
module Wrappers {
  datatype Option<+T> = None | Some(value: T)
}
