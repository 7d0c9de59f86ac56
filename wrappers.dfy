/** Optional values, used for the optional signal of an update and for lookups that may fail. */
module Wrappers {

  datatype Option<+T> = None | Some(value: T)
}
