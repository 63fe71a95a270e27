/**
 * Machine integers of the driver's C interface and the two small wrapper
 * types shared by both driver variants.
 */
module Types {

  /** uint8_t: bus addresses, command bytes, received bytes. */
  newtype byte = x: int | 0 <= x < 0x100

  /** int8_t: the return code of every platform capability (0 means success). */
  newtype int8 = x: int | -0x80 <= x < 0x80

  /** uint16_t: raw measurement counts and the status register. */
  newtype uint16 = x: int | 0 <= x < 0x1_0000

  datatype Option<+T> = None | Some(value: T)

  /** SHT3x_Result_t. The older header has no NoData. */
  datatype Result = Ok | Fail | InvalidParam | CrcError | NoData

  /**
   * The big-endian word `(hi << 8) | lo` the driver assembles from two
   * received bytes; the sensor sends the most significant byte first.
   */
  function Be16(hi: byte, lo: byte): (w: uint16)
    ensures w as int / 0x100 == hi as int && w as int % 0x100 == lo as int
  {
    (hi as int * 0x100 + lo as int) as uint16
  }

  /**
   * Why Be16 models the C expression: for two bytes widened to 16 bits,
   * `(hi << 8) | lo` is `hi * 256 + lo`.
   */
  lemma ShiftOrIsMulAdd(hi: bv16, lo: bv16)
    requires hi < 0x100 && lo < 0x100
    ensures (hi << 8) | lo == hi * 0x100 + lo
  {
  }
}
