/** The optional-value datatype used wherever the JavaScript source reads `null`/`undefined`. */
module Wrappers {

  datatype Option<T> = None | Some(value: T)
}
