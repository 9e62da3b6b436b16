/** Optional values: the model's reading of TypeScript's optional (`?`) fields and of `null`. */
module Wrappers {
  datatype Option<+T> = None | Some(value: T)
}
