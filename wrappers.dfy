/** Optional values: a missing histogram, an absent face, a failed request. */
module Wrappers {

  datatype Option<+T> = None | Some(value: T)
}
