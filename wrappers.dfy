/** Optional values, shared by the modules of this model. */
module Wrappers {
  datatype Option<T> = None | Some(value: T)
}
