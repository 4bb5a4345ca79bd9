/** Optional values: `None` stands for PHP's `null` or `false` where the source uses them as "no value". */
module Wrappers {
  datatype Option<+T> = None | Some(value: T)
}
