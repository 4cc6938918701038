# nsmf header decoder, modelled in Dafny

This project models the header decoder of nsmf, a Standard MIDI File (SMF) reader
written in C#. The decoder reads the header chunk (`MThd`) that the Standard MIDI
Files 1.0 specification (MMA RP-001, "Header Chunks") places at the start of every
file. The chunk is 14 bytes long:

- the magic `MThd`;
- a 4-byte length that must be 6;
- a 16-bit format code, where 0 is `Format0` and 1 is `Format1`;
- a 16-bit track count;
- a 16-bit division whose top bit must be clear, because SMPTE time division is not supported.

All integers are big-endian. `Smf.FromBytes` decodes that header and keeps it as the
whole decoded file.

Layout:

- `results.dfy`, module `Results`: the `Byte` and `UInt16` ranges of C#'s `byte` and `ushort`, the failures (`DecodeError`) and a `Result` type.
  Each thrown exception and each out-of-range array access of the C# decoder becomes an `Err`.
- `byte_func.dfy`, module `ByteFunc`: the big-endian 16-bit read `BytesWithOffsetToUInt16`.
  Its partner is the encoder `UInt16ToBytes`, and two lemmas prove the read and the encoder inverse.
- `header_chunk.dfy`, module `HeaderChunk`: the `Format` enum and the `Header` record.
  It holds the private helpers, as functions that return (value, bytes consumed).
  It also holds `Decoded`, a reference definition that reads each field at its fixed
  offset and reports failures in the decoder's order.
  `FromBytes` is the decoder itself. It is a method that threads a mutable `offset`
  through the helpers, as the C# decoder does, and it is proved equal to `Decoded`.
  The lemmas about `Decoded` relate it to the encoder `EncodeHeader`.
- `smf_file.dfy`, module `SmfFile`: the `Smf` record and its `FromBytes`.

Two facts about the code shape the model:

- Format code 1 decodes to `Format1`, the form with one or more tracks, as the enum's doc comment at `Assets/Nsmf.cs:148-151` says.
- The code checks the input length only once, before the magic (`InputTooShort`); every later read past the end is an out-of-range array access (`IndexOutOfRange`).

## Model

| member | source | states |
|---|---|---|
| `ByteFunc.BytesWithOffsetToUInt16` | Assets/Nsmf.cs:7-13 | succeeds exactly when both `bytes[offset]` and `bytes[offset+1]` exist, and fails with an out-of-range error otherwise; the value is `bytes[offset]*256 + bytes[offset+1]`, so the `(ushort)` cast never truncates |
| `ByteFunc.ToUShort` | Assets/Nsmf.cs:11 | the `(ushort)` cast leaves every value below 65536 unchanged |
| `ByteFunc.ReadAfterWrite` | Assets/Nsmf.cs:7-13 | reading the big-endian encoding of any 16-bit value, at any offset and with any surrounding bytes, returns that value |
| `ByteFunc.WriteAfterRead` | Assets/Nsmf.cs:7-13 | a successful read determines the two bytes read: they are the big-endian encoding of the result (most significant byte first) |
| `HeaderChunk.FormatCode` | Assets/Nsmf.cs:142-152 | each `Format` has a 16-bit wire code, and that code is 0 or 1 |
| `HeaderChunk.ValidationMagic` | Assets/Nsmf.cs:66-85 | fails with `InputTooShort` exactly when there are fewer than 4 bytes; otherwise fails with `InvalidMagic` unless bytes 0..3 are `4D 54 68 64`; on success consumes 4 |
| `HeaderChunk.ValidationHeaderLength` | Assets/Nsmf.cs:87-102 | fails with an out-of-range error exactly when the four bytes at `offset` do not all exist; otherwise succeeds exactly when they are `00 00 00 06`, and then consumes 4 |
| `HeaderChunk.ParseFormat` | Assets/Nsmf.cs:104-115 | succeeds exactly when the two bytes at `offset` exist and encode 0 or 1; the result is the format whose code they encode, and 2 bytes are consumed; any other code fails with `UnsupportedFormat` carrying that code |
| `HeaderChunk.ParseTrackLength` | Assets/Nsmf.cs:117-120 | succeeds exactly when two bytes exist at `offset`; the count is the value they encode big-endian, and 2 bytes are consumed |
| `HeaderChunk.ParseDivision` | Assets/Nsmf.cs:128-136 | succeeds exactly when two bytes exist at `offset` and bit 0x8000 of their value is clear, i.e. the high byte is below 0x80; the accepted division is below 32768, is what the bytes encode, and 2 bytes are consumed; a set top bit fails with `SmpteDivision` |
| `HeaderChunk.TopBitOfBigEndian` | Assets/Nsmf.cs:131 | the arithmetic test `TopBitSet` agrees with the C# bit test `(x & 0x8000) != 0` on every 16-bit value; bit 0x8000 of a big-endian 16-bit value is set exactly when the value is at least 32768, and exactly when bit 7 of its high byte is set |
| `HeaderChunk.Decoded` | Assets/Nsmf.cs:49-64 | no input shorter than 14 bytes is accepted; every success consumes exactly 14 bytes and has a division below 32768 |
| `HeaderChunk.FromBytes` | Assets/Nsmf.cs:49-64 | the step-by-step decoder, threading `offset` through the five helpers, returns exactly the layout-defined result `Decoded`: the same header, 14 bytes consumed, and the same failure in the same order |
| `HeaderChunk.DecodeEncode` | Assets/Nsmf.cs:49-64 | every header whose division is below 32768 decodes back from its 14-byte encoding, whatever follows it, with 14 bytes consumed |
| `HeaderChunk.EncodeDecode` | Assets/Nsmf.cs:49-64 | a successful decode determines the first 14 bytes: they are the encoding of the decoded header |
| `HeaderChunk.OnlyFirst14Matter` | Assets/Nsmf.cs:49-64 | for input of 14 bytes or more, the outcome, success or failure, is the outcome for its first 14 bytes |
| `HeaderChunk.AppendKeepsSuccess` | Assets/Nsmf.cs:49-64 | appending bytes to a successfully decoded input changes neither the success nor the header nor the offset |
| `HeaderChunk.FieldsAtFixedOffsets` | Assets/Nsmf.cs:54-61 | in a successful decode, the format's code, the track count and the division are the big-endian 16-bit values at offsets 8, 10 and 12 |
| `HeaderChunk.SampleHeader` | Assets/Nsmf.cs:49-64 | `4D 54 68 64 00 00 00 06 00 01 00 01 01 E0` decodes to `Format1`, one track and division 480, with 14 bytes consumed |
| `HeaderChunk.SampleWrongLength` | Assets/Nsmf.cs:87-102 | the same chunk with the length field `00 00 00 05` fails with `InvalidHeaderLength` |
| `SmfFile.FromBytes` | Assets/Nsmf.cs:30-33 | succeeds exactly when the header decode succeeds; the file's header is the decoded header, the consumed offset is dropped, and a failure is passed on unchanged |

## Left out

- Exception messages and exception types: a failure is a `DecodeError` variant naming the check that failed. The offset in the format error's message is always 8 and is not carried.
- 32-bit `uint` offset arithmetic: offsets are unbounded `nat`. A wrap-around of `offset + k` could only happen at offsets where the first array read already fails, so the model loses nothing observable.
- C# `in` parameters, `#nullable` and the Unity project layout: they have no behaviour to model.
- Track chunks (`MTrk`), delta times, variable-length quantities and events: the code does not decode them, and `Smf` holds only the header.
- Loading files, playback and host integration: the code has none.
