/** Optional values, for the source's "not found" and "could not read"
    outcomes. */
module Wrappers {
  datatype Option<+T> = None | Some(value: T)
}
