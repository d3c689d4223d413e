/** Optional values: the source's `None`-or-value fields and operations that can fail. */
module Wrappers {

  datatype Option<+T> = None | Some(value: T)
}
