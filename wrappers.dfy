/** Optional values, standing for Python's `None` returns and optional arguments. */
module Wrappers {

  datatype Option<+T> = None | Some(value: T)
}
