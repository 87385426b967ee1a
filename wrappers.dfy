/** Optional values: a missing JSON key, a missing embed, no notification. */
module Wrappers {

  datatype Option<+T> = None | Some(value: T)
}
