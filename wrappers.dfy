/** Optional values: a JavaScript `null`/`undefined` becomes `None`. */
module Wrappers {
  datatype Option<+T> = None | Some(value: T)
}
