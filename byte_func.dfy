/** Big-endian reads of fixed-width unsigned integers from a byte array
    (the `ByteFunc` class of the decoder). */
module ByteFunc {
  import opened Results

  /** The truncating cast `(ushort)x` of C#, for a non-negative `x`. */
  function ToUShort(x: nat): (r: UInt16)
    ensures x < 0x1_0000 ==> r == x
  {
    x % 0x1_0000
  }

  /** The two bytes that store `v` most significant byte first. */
  function UInt16ToBytes(v: UInt16): (s: seq<Byte>)
    ensures |s| == 2
  {
    [v / 0x100, v % 0x100]
  }

  /** Reads the big-endian 16-bit unsigned integer stored at `offset`: the byte at
      `offset` is the high byte, the one after it the low byte. Either index past
      the end of `bytes` is an out-of-range failure. */
  function BytesWithOffsetToUInt16(bytes: seq<Byte>, offset: nat): (r: Result<UInt16>)
    ensures r.Ok? <==> offset + 2 <= |bytes|
    ensures r.Err? ==> r.error == IndexOutOfRange
    ensures r.Ok? ==> r.value == (bytes[offset] as int) * 0x100 + bytes[offset + 1]
  {
    if offset >= |bytes| then Err(IndexOutOfRange)
    else
      var value0: int := bytes[offset];
      if offset + 1 >= |bytes| then Err(IndexOutOfRange)
      else
        var value1: int := bytes[offset + 1];
        Ok(ToUShort(value0 * 0x100 + value1))
  }

  /** Reading back what `UInt16ToBytes` stored recovers the value, whatever
      surrounds the two bytes. */
  lemma ReadAfterWrite(prefix: seq<Byte>, v: UInt16, suffix: seq<Byte>)
    ensures BytesWithOffsetToUInt16(prefix + UInt16ToBytes(v) + suffix, |prefix|) == Ok(v)
  {
  }

  /** A successful read determines the two bytes it read: they are the big-endian
      encoding of the value. */
  lemma WriteAfterRead(bytes: seq<Byte>, offset: nat)
    requires BytesWithOffsetToUInt16(bytes, offset).Ok?
    ensures bytes[offset..offset + 2] == UInt16ToBytes(BytesWithOffsetToUInt16(bytes, offset).value)
  {
  }
}
