/** The optional value used for query parameters that may be absent and for search results. */
module Wrappers {

  datatype Option<+T> = None | Some(value: T)
}
