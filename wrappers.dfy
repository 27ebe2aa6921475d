/** The optional value used for JavaScript's `undefined` captures and `null` results. */
module Wrappers {
  datatype Option<+T> = None | Some(value: T)
}
