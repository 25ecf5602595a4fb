/** Optional values, used wherever the source has an `Option`, a `None`
    or a missing dictionary key. */
module Wrappers {

  datatype Option<+T> = None | Some(value: T)
}
