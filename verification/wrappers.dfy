/** Optional values, used wherever the Swift code has an optional. */
module Wrappers {

  /** A Swift optional: `nil` is `None`, a present value is `Some`. */
  datatype Option<+T> = None | Some(value: T)
}
