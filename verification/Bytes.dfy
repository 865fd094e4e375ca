/** Fixed-width integers and option values shared by every other module. */
module Bytes {

  type byte = b: int | 0 <= b < 256
  type bytes = seq<byte>

  const TWO_16: int := 0x1_0000
  const TWO_32: int := 0x1_0000_0000
  const TWO_63: int := 0x8000_0000_0000_0000
  const TWO_64: int := 0x1_0000_0000_0000_0000

  // The widest size that the printers accept for a buffer.
  const INT_MAX: int := 0x7fff_ffff

  type u16 = x: int | 0 <= x < TWO_16
  type u32 = x: int | 0 <= x < TWO_32
  type u64 = x: int | 0 <= x < TWO_64
  type i64 = x: int | -TWO_63 <= x < TWO_63

  /** A public key or a hash. */
  type key32 = k: bytes | |k| == 32 witness seq(32, _ => 0)

  /** A C string: no NUL inside. */
  type cstring = s: string | forall i :: 0 <= i < |s| ==> s[i] != '\0'

  datatype Option<+T> = None | Some(value: T)
}
