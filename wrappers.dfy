/** Optional values, standing for the source's nullable references and `TryGetValue` misses. */
module Wrappers {
  datatype Option<T> = None | Some(value: T)
}
