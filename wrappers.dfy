/** Optional values, used for the player's nullable fields. */
module Wrappers {
  datatype Option<+T> = None | Some(value: T)
}
