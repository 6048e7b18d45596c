/** Optional values: a DOM lookup or attribute read that may yield nothing (`null`). */
module Wrappers {
  datatype Option<+T> = None | Some(value: T)
}
