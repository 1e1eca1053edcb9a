/** Optional values: JavaScript's `undefined` result of `find` and the nullable `selectedListId`. */
module Wrappers {
  datatype Option<+T> = None | Some(value: T)
}
