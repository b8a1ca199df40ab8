/** The optional-value datatype used for headers, environment variables and parse results. */
module Wrappers {
  datatype Option<+T> = None | Some(value: T)
}
