/** The optional value used for JavaScript's `null`/`undefined` fields and for "no request was started". */
module Wrappers {
  datatype Option<+T> = None | Some(value: T)
}
