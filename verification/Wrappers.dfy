/** Optional values and fallible results, shared by every module. */
module Wrappers {
  datatype Option<+T> = None | Some(value: T)

  datatype Result<+T, +E> = Ok(value: T) | Err(error: E)

  /** The largest value of the 64-bit signed integers in which money, tokens and times are stored. */
  const MAX_INT64: int := 0x7FFF_FFFF_FFFF_FFFF

  newtype byte = b: int | 0 <= b < 256
}
