/** Optional values: a JavaScript `undefined`/`null` or a failed match is `None`. */
module Wrappers {
  datatype Option<+T> = None | Some(value: T)
}
