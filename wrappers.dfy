/** The optional-value wrapper used for request fields that may be absent. */
module Wrappers {

  /** A field that is absent (or of the wrong JSON type) is None. */
  datatype Option<+T> = None | Some(value: T)
}
