/** Optional values: a slot of the dot-element array that may not hold an element yet. */
module Wrappers {

  datatype Option<+T> = None | Some(value: T)
}
