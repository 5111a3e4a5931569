/** Optional values: a report page the scan text may not be readable from. */
module Wrappers {

  datatype Option<+T> = None | Some(value: T)
}
