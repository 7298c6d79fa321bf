/** Optional values, used for the tick labels and for a drag that may or may not set the angle. */
module Wrappers {

  datatype Option<+T> = None | Some(value: T)
}
