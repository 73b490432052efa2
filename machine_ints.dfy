/** The fixed-width unsigned integers the source uses. */
module MachineInts {

  const BYTE_LIMIT: int := 0x100
  const U32_LIMIT: int := 0x1_0000_0000
  const U64_LIMIT: int := 0x1_0000_0000_0000_0000

  /** Rust `u8`. */
  newtype byte = x: int | 0 <= x < 0x100

  /** Rust `u32`. */
  newtype u32 = x: int | 0 <= x < 0x1_0000_0000

  /** Rust `u64`. */
  newtype u64 = x: int | 0 <= x < 0x1_0000_0000_0000_0000
}
