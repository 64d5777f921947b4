/** Failure datatypes and the machine integers of the modelled program. */
module Prelude {
  datatype Option<+T> = None | Some(value: T)

  datatype Result<+T, +E> = Ok(value: T) | Err(error: E)

  type u8 = x: int | 0 <= x < 0x100
  type u16 = x: int | 0 <= x < 0x1_0000
  type u32 = x: int | 0 <= x < 0x1_0000_0000
  type u64 = x: int | 0 <= x < 0x1_0000_0000_0000_0000

  type Bytes = seq<u8>

  /** `u16::to_be_bytes`. */
  function BigEndian16(x: u16): (b: Bytes)
    ensures |b| == 2 && FromBigEndian16(b[0], b[1]) == x
  {
    [x / 0x100, x % 0x100]
  }

  /** `u16::from_be_bytes`. */
  function FromBigEndian16(hi: u8, lo: u8): u16 {
    hi * 0x100 + lo
  }

  /** `u32::from_le_bytes`. */
  function FromLittleEndian32(a: u8, b: u8, c: u8, d: u8): u32 {
    a + 0x100 * b + 0x1_0000 * c + 0x100_0000 * d
  }
}
