/** Optional values, used for the session's user and for parsers that may fail. */
module Wrappers {
  datatype Option<+T> = None | Some(value: T)
}
