/** The optional value used for the source's `null` results and absent storage slots. */
module Wrappers {
  datatype Option<+T> = None | Some(value: T)
}
