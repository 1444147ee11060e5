/** The optional-value wrapper used for JavaScript values that may be `undefined`. */
module Wrappers {

  datatype Option<+T> = None | Some(value: T)
}
