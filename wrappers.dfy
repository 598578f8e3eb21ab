/** Optional values: the outcome of parsing a number out of a form field. */
module Wrappers {

  datatype Option<+T> = None | Some(value: T)
}
