/** Optional values: a JSON field that may be absent, a balance a response may omit. */
module Wrappers {

  datatype Option<+T> = None | Some(value: T)

}
