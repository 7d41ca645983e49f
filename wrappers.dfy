/** Optional values, as Swift's `T?` (for instance the result of `firstIndex(of:)`). */
module Wrappers {
  datatype Option<+T> = None | Some(value: T)
}
