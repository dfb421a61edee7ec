/** Optional values: a JavaScript `null`, `NaN` or thrown error is `None`. */
module Wrappers {
  datatype Option<+T> = None | Some(value: T)
}
