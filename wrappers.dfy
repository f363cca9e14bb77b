/** Optional values, for table cells a left merge leaves empty and for parses that fail. */
module Wrappers {

  datatype Option<+T> = None | Some(value: T)
}
