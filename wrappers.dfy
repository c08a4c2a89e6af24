/** Optional values: a form field or configuration entry that may be absent. */
module Wrappers {

  datatype Option<+T> = None | Some(value: T)
}
