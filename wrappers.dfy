/** Optional values, used for lookups that can fail and for unset record entries. */
module Wrappers {

  datatype Option<+T> = None | Some(value: T)
}
