/** The decoded Standard MIDI File (the `Smf` class of the decoder): only its header
    chunk is decoded. */
module SmfFile {
  import opened Results
  import opened ByteFunc
  import HeaderChunk

  /** A decoded file; it keeps only the header. */
  datatype Smf = Smf(header: HeaderChunk.Header)

  /** Decodes a file: decodes the header chunk and keeps the header, dropping the
      number of bytes it consumed. Every failure of the header decoder is passed on
      unchanged. */
  method FromBytes(bytes: seq<Byte>) returns (r: Result<Smf>)
    ensures r.Ok? <==> HeaderChunk.Decoded(bytes).Ok?
    ensures r.Ok? ==> r.value.header == HeaderChunk.Decoded(bytes).value.0
    ensures r.Err? ==> r.error == HeaderChunk.Decoded(bytes).error
  {
    var headerAndOffset :- HeaderChunk.FromBytes(bytes);
    return Ok(Smf(headerAndOffset.0));
  }
}
