/** Optional values: a JavaScript property that may be absent or `undefined`. */
module Wrappers {

  datatype Option<+T> = None | Some(value: T)

}
