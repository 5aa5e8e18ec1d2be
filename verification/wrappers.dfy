/** The optional-value datatype used for nullable pipe slots and DMA contexts. */
module Wrappers {
  datatype Option<+T> = None | Some(value: T)
}
