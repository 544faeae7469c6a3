/** Types shared by the modules. */
module Common {
  const TWO32: int := 0x1_0000_0000
  const TWO63: nat := 0x8000_0000_0000_0000
  const TWO64: nat := 0x1_0000_0000_0000_0000

  /** Elements per block of the concurrent queue. */
  const BLOCK_SIZE: nat := 32

  /** The 32-bit unsigned integer of the source; storing a value checks that it did not wrap. */
  type uint32 = x: int | 0 <= x < 0x1_0000_0000

  type byte = x: int | 0 <= x < 256

  datatype Option<+T> = None | Some(value: T)
}
