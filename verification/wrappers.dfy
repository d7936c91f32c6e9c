/** Optional results for the partial inverse functions of the model. */
module Wrappers {

  datatype Option<+T> = None | Some(value: T)
}
