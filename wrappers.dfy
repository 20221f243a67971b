/** Optional values: `undefined` or an absent key on the JavaScript side. */
module Wrappers {
  datatype Option<+T> = None | Some(value: T)
}
