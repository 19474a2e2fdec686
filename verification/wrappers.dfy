/** Optional values: `null` in the controller, and the result of a parse
    that may fail. */
module Wrappers {
  datatype Option<+T> = None | Some(value: T)
}
