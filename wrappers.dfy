/** Optional values, used for partial parses. */
module Wrappers {
  datatype Option<+T> = None | Some(value: T)
}
