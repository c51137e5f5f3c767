/** The optional-value type used wherever the firmware can raise or return nothing. */
module Wrappers {
  datatype Option<+T> = None | Some(value: T)
}
