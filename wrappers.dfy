/** Optional values: JavaScript's `null` and `undefined` both become None. */
module Wrappers {
  datatype Option<+T> = None | Some(value: T)
}
