/** Small shared vocabulary: optional values, results with an error
    channel, and the fixed-width C integer types the runtime uses. */
module Base {

  /** A value that may be absent. */
  datatype Option<+T> = None | Some(value: T)

  /** The outcome of an operation that can fail with an error of type E. */
  datatype Result<+T, +E> = Ok(value: T) | Err(error: E)

  /** C `int32_t`. */
  newtype int32 = x: int | -0x8000_0000 <= x < 0x8000_0000

  /** C `uint8_t`. */
  newtype uint8 = x: int | 0 <= x < 0x100

  /** The conversion of an integer to `uint8_t`: C reduces it modulo 2^8.
      Dafny's `%` is Euclidean, so the remainder is never negative and this
      is the C result for negative arguments too. */
  function ToUint8(x: int): (r: uint8)
    ensures 0 <= x < 0x100 ==> r as int == x
    ensures (r as int - x) % 0x100 == 0
  {
    (x % 0x100) as uint8
  }
}
