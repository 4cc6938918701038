/** The header chunk (`MThd`) of a Standard MIDI File, as the `Header` class and the
    `Format` enum of the decoder read it. The chunk occupies bytes 0..13:
      0..3    the magic "MThd" (4D 54 68 64)
      4..7    the body length, which must be 6 (00 00 00 06)
      8..9    the format code, big-endian: 0 or 1
      10..11  the number of tracks, big-endian
      12..13  the division (ticks per quarter note), big-endian, top bit clear */
module HeaderChunk {
  import opened Results
  import opened ByteFunc

  /** The file format. Code 0 is `Format0` (a single track), code 1 is `Format1`
      (one or more tracks). */
  datatype Format = Format0 | Format1

  /** The decoded header chunk. */
  datatype Header = Header(format: Format, trackLength: UInt16, division: UInt16)

  const MagicMThd: seq<Byte> := [0x4D, 0x54, 0x68, 0x64]
  const HeaderLengthSix: seq<Byte> := [0x00, 0x00, 0x00, 0x06]

  /** The 16-bit code that stands for a format on the wire. */
  function FormatCode(f: Format): (code: UInt16)
    ensures code <= 1
  {
    match f
    case Format0 => 0
    case Format1 => 1
  }

  /** Checks the magic at the start of the input. Fails when there are fewer than
      4 bytes, and when bytes 0..3 are not "MThd"; otherwise consumes 4 bytes. */
  function ValidationMagic(bytes: seq<Byte>): (r: Result<nat>)
    ensures r.Ok? <==> |bytes| >= 4 && bytes[..4] == MagicMThd
    ensures r.Ok? ==> r.value == 4
    ensures r == Err(InputTooShort) <==> |bytes| < 4
    ensures r.Err? && |bytes| >= 4 ==> r.error == InvalidMagic
  {
    if |bytes| < 4 then Err(InputTooShort)
    else
      var magic0, magic1, magic2, magic3 := bytes[0], bytes[1], bytes[2], bytes[3];
      if magic0 != 0x4D || magic1 != 0x54 || magic2 != 0x68 || magic3 != 0x64 then
        Err(InvalidMagic)
      else
        Ok(4)
  }

  /** Checks the header length field at `offset`: all four bytes are read first (a
      read past the end fails), then they must be exactly 00 00 00 06. Consumes 4 bytes. */
  function ValidationHeaderLength(bytes: seq<Byte>, offset: nat): (r: Result<nat>)
    ensures r.Ok? <==> offset + 4 <= |bytes| && bytes[offset..offset + 4] == HeaderLengthSix
    ensures r.Ok? ==> r.value == 4
    ensures r == Err(IndexOutOfRange) <==> offset + 4 > |bytes|
    ensures r.Err? && offset + 4 <= |bytes| ==> r.error == InvalidHeaderLength
  {
    if offset + 4 > |bytes| then Err(IndexOutOfRange)
    else
      var length0, length1, length2, length3 :=
        bytes[offset], bytes[offset + 1], bytes[offset + 2], bytes[offset + 3];
      if length0 != 0x00 || length1 != 0x00 || length2 != 0x00 || length3 != 0x06 then
        Err(InvalidHeaderLength)
      else
        Ok(4)
  }

  /** Reads the format code at `offset`: code 0 is `Format0`, code 1 is `Format1`,
      any other code fails. Consumes 2 bytes. */
  function ParseFormat(bytes: seq<Byte>, offset: nat): (r: Result<(Format, nat)>)
    ensures offset + 2 > |bytes| ==> r == Err(IndexOutOfRange)
    ensures r.Ok? <==> offset + 2 <= |bytes| && bytes[offset..offset + 2] in {[0, 0], [0, 1]}
    ensures r.Ok? ==> r.value.1 == 2 && bytes[offset..offset + 2] == UInt16ToBytes(FormatCode(r.value.0))
    ensures r.Err? && offset + 2 <= |bytes| ==>
      r.error == UnsupportedFormat(BytesWithOffsetToUInt16(bytes, offset).value)
  {
    var code :- BytesWithOffsetToUInt16(bytes, offset);
    WriteAfterRead(bytes, offset);
    if code == 0 then Ok((Format0, 2))
    else if code == 1 then Ok((Format1, 2))
    else Err(UnsupportedFormat(code))
  }

  /** Reads the track count at `offset`; any 16-bit value is accepted. Consumes 2 bytes. */
  function ParseTrackLength(bytes: seq<Byte>, offset: nat): (r: Result<(UInt16, nat)>)
    ensures r.Ok? <==> offset + 2 <= |bytes|
    ensures r.Err? ==> r.error == IndexOutOfRange
    ensures r.Ok? ==> r.value.1 == 2 && bytes[offset..offset + 2] == UInt16ToBytes(r.value.0)
  {
    var trackLength :- BytesWithOffsetToUInt16(bytes, offset);
    WriteAfterRead(bytes, offset);
    Ok((trackLength, 2))
  }

  /** Reads the division at `offset`. A value with bit 0x8000 set (SMPTE frames and
      ticks instead of ticks per quarter note) fails; any other value is returned
      unchanged. Consumes 2 bytes. */
  function ParseDivision(bytes: seq<Byte>, offset: nat): (r: Result<(UInt16, nat)>)
    ensures offset + 2 > |bytes| ==> r == Err(IndexOutOfRange)
    ensures r.Ok? <==> offset + 2 <= |bytes| && bytes[offset] < 0x80
    ensures r.Ok? ==> r.value.1 == 2 && r.value.0 < 0x8000
    ensures r.Ok? ==> bytes[offset..offset + 2] == UInt16ToBytes(r.value.0)
    ensures r.Err? && offset + 2 <= |bytes| ==> r.error == SmpteDivision
  {
    var division :- BytesWithOffsetToUInt16(bytes, offset);
    WriteAfterRead(bytes, offset);
    TopBitOfBigEndian(bytes[offset], bytes[offset + 1]);
    if TopBitSet(division) then Err(SmpteDivision)
    else Ok((division, 2))
  }

  /** The test `(x & 0x8000) != 0` of the C# decoder: bit 15 of the 16-bit value `x`,
      written arithmetically. */
  predicate TopBitSet(x: UInt16) {
    (x / 0x8000) % 2 == 1
  }

  /** Bit 15 of a 16-bit value is set exactly when the value is at least 32768,
      that is, when bit 7 of its high byte is set; and the arithmetic `TopBitSet`
      agrees with the bit-vector test `(x & 0x8000) != 0`. */
  lemma TopBitOfBigEndian(hi: Byte, lo: Byte)
    ensures TopBitSet((hi as int) * 0x100 + lo) <==> hi >= 0x80
    ensures TopBitSet((hi as int) * 0x100 + lo) <==> (hi as int) * 0x100 + lo >= 0x8000
    ensures TopBitSet((hi as int) * 0x100 + lo) <==> ((((hi as int) * 0x100 + lo) as bv16) & 0x8000 != 0)
  {
  }

  /** The header chunk as its layout defines it, field by field at fixed offsets, with
      the failures in the order the decoder meets them. This is the reference the
      decoder `FromBytes` is proved against. */
  function Decoded(bytes: seq<Byte>): (r: Result<(Header, nat)>)
    ensures |bytes| < 14 ==> r.Err?
    ensures r.Ok? ==> r.value.1 == 14 && r.value.0.division < 0x8000
  {
    if |bytes| < 4 then Err(InputTooShort)
    else if bytes[..4] != MagicMThd then Err(InvalidMagic)
    else if |bytes| < 8 then Err(IndexOutOfRange)
    else if bytes[4..8] != HeaderLengthSix then Err(InvalidHeaderLength)
    else if |bytes| < 10 then Err(IndexOutOfRange)
    else if bytes[8] != 0 || bytes[9] > 1 then Err(UnsupportedFormat((bytes[8] as int) * 0x100 + bytes[9]))
    else if |bytes| < 14 then Err(IndexOutOfRange)
    else if bytes[12] >= 0x80 then Err(SmpteDivision)
    else
      var format := if bytes[9] == 0 then Format0 else Format1;
      Ok((Header(format, (bytes[10] as int) * 0x100 + bytes[11], (bytes[12] as int) * 0x100 + bytes[13]), 14))
  }

  /** Decodes the header chunk at the start of `bytes`, returning the header and the
      number of bytes consumed. Like the C# decoder, it threads a running `offset`
      through the validation and parse steps; the first failing step aborts. */
  method FromBytes(bytes: seq<Byte>) returns (r: Result<(Header, nat)>)
    ensures r == Decoded(bytes)
  {
    var offset :- ValidationMagic(bytes);
    var lengthBytes :- ValidationHeaderLength(bytes, offset);
    offset := offset + lengthBytes;

    var formatAndLength :- ParseFormat(bytes, offset);
    var (format, formatBytesLength) := formatAndLength;
    offset := offset + formatBytesLength;

    var trackAndLength :- ParseTrackLength(bytes, offset);
    var (trackLength, trackBytesLength) := trackAndLength;
    offset := offset + trackBytesLength;

    var divisionAndLength :- ParseDivision(bytes, offset);
    var (division, divisionBytesLength) := divisionAndLength;
    offset := offset + divisionBytesLength;

    return Ok((Header(format, trackLength, division), offset));
  }

  /** The 14 bytes of the header chunk that stores `h`. */
  function EncodeHeader(h: Header): (s: seq<Byte>)
    ensures |s| == 14
  {
    MagicMThd + HeaderLengthSix + UInt16ToBytes(FormatCode(h.format))
      + UInt16ToBytes(h.trackLength) + UInt16ToBytes(h.division)
  }

  /** Every header whose division has its top bit clear is decoded back from its
      encoding, whatever follows it, and exactly 14 bytes are consumed. */
  lemma DecodeEncode(h: Header, rest: seq<Byte>)
    requires h.division < 0x8000
    ensures Decoded(EncodeHeader(h) + rest) == Ok((h, 14))
  {
  }

  /** A successful decode determines the first 14 bytes: they are the encoding of
      the decoded header. */
  lemma EncodeDecode(bytes: seq<Byte>)
    requires Decoded(bytes).Ok?
    ensures bytes[..14] == EncodeHeader(Decoded(bytes).value.0)
  {
  }

  /** The outcome, success or failure, depends on the first 14 bytes only. */
  lemma OnlyFirst14Matter(bytes: seq<Byte>)
    requires |bytes| >= 14
    ensures Decoded(bytes) == Decoded(bytes[..14])
  {
  }

  /** Appending bytes never changes a successful decode. */
  lemma AppendKeepsSuccess(bytes: seq<Byte>, more: seq<Byte>)
    requires Decoded(bytes).Ok?
    ensures Decoded(bytes + more) == Decoded(bytes)
  {
  }

  /** The fields of a successful decode are the big-endian 16-bit values at
      offsets 8, 10 and 12. */
  lemma FieldsAtFixedOffsets(bytes: seq<Byte>)
    requires Decoded(bytes).Ok?
    ensures FormatCode(Decoded(bytes).value.0.format) == BytesWithOffsetToUInt16(bytes, 8).value
    ensures Decoded(bytes).value.0.trackLength == BytesWithOffsetToUInt16(bytes, 10).value
    ensures Decoded(bytes).value.0.division == BytesWithOffsetToUInt16(bytes, 12).value
  {
  }

  /** A header chunk for format 1, one track, 480 ticks per quarter note. */
  lemma SampleHeader()
    ensures Decoded([0x4D, 0x54, 0x68, 0x64, 0x00, 0x00, 0x00, 0x06, 0x00, 0x01, 0x00, 0x01, 0x01, 0xE0])
         == Ok((Header(Format1, 1, 480), 14))
  {
  }

  /** A header chunk whose length field says 5 is rejected for its length. */
  lemma SampleWrongLength()
    ensures Decoded([0x4D, 0x54, 0x68, 0x64, 0x00, 0x00, 0x00, 0x05, 0x00, 0x01, 0x00, 0x01, 0x01, 0xE0])
         == Err(InvalidHeaderLength)
  {
    var bytes: seq<Byte> := [0x4D, 0x54, 0x68, 0x64, 0x00, 0x00, 0x00, 0x05, 0x00, 0x01, 0x00, 0x01, 0x01, 0xE0];
    assert bytes[4..8][3] != HeaderLengthSix[3];
  }
}
