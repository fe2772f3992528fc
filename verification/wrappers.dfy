/** Optional values: a missing dictionary key, a failed request, an absent field. */
module Wrappers {

  datatype Option<+T> = None | Some(value: T)

}
