/** The optional-value datatype used for lookups and for `json.loads`, which may fail. */
module Wrappers {
  datatype Option<+T> = None | Some(value: T)
}
