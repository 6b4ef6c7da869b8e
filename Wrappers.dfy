/** Optional values, used wherever the modelled code tests for null or a failed lookup. */
module Wrappers {

  datatype Option<+T> = None | Some(value: T)
}
