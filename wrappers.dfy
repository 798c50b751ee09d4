/** Optional values: the source returns `False` where a lookup finds nothing. */
module Wrappers {
  datatype Option<+T> = None | Some(value: T)
}
