/** Optional values, used where the script has a missing element, a null or a skipped result. */
module Wrappers {
  datatype Option<+T> = None | Some(value: T)
}
