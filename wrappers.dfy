/** Optional values, used for struct tags, error results and environment lookups. */
module Wrappers {

  datatype Option<+T> = None | Some(value: T)
}
