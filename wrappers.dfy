/** Optional values: Python's `None` default arguments and parse failures. */
module Wrappers {

  datatype Option<+T> = None | Some(value: T)
}
