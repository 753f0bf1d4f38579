/** Optional values, standing for JavaScript's `undefined` where a value may
    be absent. */
module Wrappers {
  datatype Option<T> = None | Some(value: T)
}
