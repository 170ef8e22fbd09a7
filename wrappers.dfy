/** Optional values, used for an absent file, an absent key or an unbound variable. */
module Wrappers {
  datatype Option<+T> = None | Some(value: T)
}
