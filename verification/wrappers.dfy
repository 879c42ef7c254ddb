/** Optional values: a JavaScript `undefined` slot that may or may not be filled. */
module Wrappers {

  datatype Option<+T> = None | Some(value: T)

}
