/** Optional values: the model's stand-in for Python's `None` and for
    dictionary keys that may be missing. */
module Wrappers {

  datatype Option<+T> = None | Some(value: T)
}
