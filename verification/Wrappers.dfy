/** Optional values, used for every "not set", "absent" and "could not be read". */
module Wrappers {

  datatype Option<+T> = None | Some(value: T)
}
