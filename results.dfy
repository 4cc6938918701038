/** Failures of the header decoder, and the Result type that carries them.
    Every `throw new System.Exception(...)` of the decoder, and every array access
    the runtime rejects as out of range, becomes one `DecodeError` variant. */
module Results {

  /** A C# `byte`. */
  type Byte = b: int | 0 <= b < 0x100

  /** A C# `ushort`. */
  type UInt16 = x: int | 0 <= x < 0x1_0000

  /** Why decoding stopped. The message texts of the C# exceptions are not kept. */
  datatype DecodeError =
    | InputTooShort            // fewer than 4 bytes, checked before the magic is read
    | InvalidMagic             // bytes 0..3 are not "MThd"
    | InvalidHeaderLength      // the 4-byte length field is not 00 00 00 06
    | UnsupportedFormat(code: UInt16)  // a format code other than 0 or 1
    | SmpteDivision            // the top bit of the division is set (SMPTE time code)
    | IndexOutOfRange          // a read past the end of the byte array

  /** Either a decoded value or the error that aborted decoding; usable with `:-`. */
  datatype Result<+T> = Ok(value: T) | Err(error: DecodeError) {

    predicate IsFailure() {
      Err?
    }

    function PropagateFailure<U>(): Result<U>
      requires Err?
    {
      Err(error)
    }

    function Extract(): T
      requires Ok?
    {
      value
    }
  }
}
