/** Optional values: Go's "nil or a value" results (a nil error, a missing reply). */
module Wrappers {

  datatype Option<+T> = None | Some(value: T)
}
