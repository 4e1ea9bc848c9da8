/** Optional values, standing for the `undefined`/`null` of the source's JavaScript. */
module Wrappers {

  datatype Option<+T> = None | Some(value: T)
}
