/** Optional values, used for results the source signals by an early return. */
module Wrappers {

  datatype Option<+T> = None | Some(value: T)
}
