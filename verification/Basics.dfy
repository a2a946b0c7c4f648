/** Result types shared by the modules of this project. */
module Basics {

  datatype Option<+T> = None | Some(value: T)

  datatype Result<+T, +E> = Ok(value: T) | Err(error: E)

  /** The largest value of a signed 64-bit column. */
  const MAX_INT64: nat := 0x7fff_ffff_ffff_ffff

  /** The largest value of an unsigned 64-bit counter. */
  const MAX_UINT64: nat := 0xffff_ffff_ffff_ffff

  /** Microseconds. */
  type Time = nat
}
