/** The optional value used for Go's nilable `error` references. */
module Wrappers {

  /** `None` plays the part of a nil reference. */
  datatype Option<+T> = None | Some(value: T)
}
