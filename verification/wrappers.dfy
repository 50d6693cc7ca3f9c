/** The optional-value datatype used for fields that may be absent. */
module Wrappers {

  /** A present value, or its absence (`undefined` in the settings object). */
  datatype Option<+T> = None | Some(value: T)
}
