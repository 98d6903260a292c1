/** The optional value used for the session's fields. */
module Wrappers {

  /** A value that may be missing: Ruby's `nil` or a present value. */
  datatype Option<+T> = None | Some(value: T)
}
