/** The optional value used for conversions that can fail (Python raises). */
module Wrappers {

  datatype Option<+T> = None | Some(value: T)
}
