/** Optional values, used where the source looks something up that may be absent. */
module Wrappers {
  datatype Option<+T> = None | Some(value: T)
}
