/** Optional values, used where the source raises or has nothing to return. */
module Wrappers {
  datatype Option<+T> = None | Some(value: T)
}
