// What several modules share: a value that may be absent, and the range of a uint32.

module Wrappers {

  datatype Option<T> = None | Some(value: T)

  /** A uint32 counts modulo this. */
  const UINT32 := 0x1_0000_0000
}
