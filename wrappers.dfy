/** Optional values: the result of a lookup or selection that may find nothing. */
module Wrappers {
  datatype Option<+T> = None | Some(value: T)
}
