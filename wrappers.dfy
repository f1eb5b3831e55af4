/** Optional values: the outcome of a lookup or of a step that may raise. */
module Wrappers {

  datatype Option<+T> = None | Some(value: T)
}
