/** Optional values: a JavaScript value that may be `null` or `NaN`. */
module Wrappers {

  datatype Option<+T> = None | Some(value: T)
}
