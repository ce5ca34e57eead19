/** Optional values: Go's nil-able pointers (`*Team`, `*time.Time`) become `Option`. */
module Wrappers {

  datatype Option<+T> = None | Some(value: T)
}
