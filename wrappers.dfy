/** Optional values, standing for Go's `error` results: `None` is `nil`. */
module Wrappers {

  datatype Option<+T> = None | Some(value: T)
}
