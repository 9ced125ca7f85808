/** Optional values; `None` stands for a panic. */
module Wrappers {

  datatype Option<+T> = None | Some(value: T)

}
