/** Optional values, standing for Python's `None` / a present value. */
module Wrappers {

  datatype Option<+T> = None | Some(value: T)
}
