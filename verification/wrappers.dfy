/** Optional values, used for the outcome of parsing the incoming snapshot. */
module Wrappers {

  datatype Option<+T> = None | Some(value: T)
}
