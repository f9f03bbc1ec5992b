/** Optional values: a dictionary lookup that may miss, a quote that may be NaN. */
module Wrappers {
  datatype Option<+T> = None | Some(value: T)
}
