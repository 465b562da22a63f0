/** Bytes, and the absent-or-present value that stands for the source's `null` and `undefined`. */
module Wrappers {

  type Byte = n: nat | n < 256 witness 0

  datatype Option<+T> = None | Some(value: T)
}
