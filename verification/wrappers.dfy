/** Optional values: `None` stands for JavaScript's `undefined` (or an absent field). */
module Wrappers {

  datatype Option<+T> = None | Some(value: T)
}
