/** Optional values, used by the decoders below. */
module Wrappers {
  datatype Option<+T> = None | Some(value: T)
}
