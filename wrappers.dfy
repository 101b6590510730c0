/** Optional values: JavaScript's `T | undefined` and `number | null`. */
module Wrappers {

  datatype Option<+T> = None | Some(value: T)
}
