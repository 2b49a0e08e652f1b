/** Optional values: JavaScript's `undefined`/`null`, and `NaN` for a failed parse. */
module Wrappers {

  datatype Option<+T> = None | Some(value: T)
}
