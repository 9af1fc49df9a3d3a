/** Optional values: a Go pointer that may be nil, a lookup that may miss, a parse that may fail. */
module Wrappers {

  datatype Option<+T> = None | Some(value: T)
}
