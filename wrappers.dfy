/** Optional values: `std::optional` results and "returned false" outcomes. */
module Wrappers {

  datatype Option<+T> = None | Some(value: T)
}
