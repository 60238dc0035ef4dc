/** Optional values, used for the last break time and for a run that may not finish. */
module Wrappers {
  datatype Option<T> = None | Some(value: T)
}
