/** Optional values: the file picker's answer and the result of a read or write that can fail. */
module Wrappers {
  datatype Option<+T> = None | Some(value: T)
}
