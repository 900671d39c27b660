/** Optional values: `None` stands for JavaScript's `null` or an empty form field. */
module Wrappers {
  datatype Option<+T> = None | Some(value: T)
}
