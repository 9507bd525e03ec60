/** The optional value returned by the filter-value extractor. */
module Wrappers {

  datatype Option<+T> = None | Some(value: T)
}
