/** Optional values, used where the Go code returns a nil pointer or leaves a field unset. */
module Wrappers {

  datatype Option<+T> = None | Some(value: T)
}
