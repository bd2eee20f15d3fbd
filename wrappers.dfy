/** Optional values, used for the animation's start timestamp, which is
    `null` until the first frame arrives. */
module Wrappers {
  datatype Option<+T> = None | Some(value: T)
}
