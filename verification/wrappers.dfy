/** Optional values, standing for Python's `None` and for a key a dictionary lacks. */
module Wrappers {

  datatype Option<+T> = None | Some(value: T)
}
