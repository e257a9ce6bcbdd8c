/** A value that may be missing: JavaScript's `undefined` result of a failed lookup. */
module Wrappers {

  datatype Option<+T> = None | Some(value: T)
}
