/** The chunked checksum of a file on disk. */
module RBHelpers {
  import opened Crc32

  const CHUNK_SIZE: nat := 1000000

  /** `calculate_checksum`: reads the file in chunks of one million bytes. */
  method CalculateChecksum(file: seq<Byte>) returns (checksum: bv32)
    ensures checksum == Checksum(file)
  {
    hide Process;
    var crc := MASK;
    ProcessNothing(MASK);
    var totalRead := 0;
    while totalRead < |file|
      invariant 0 <= totalRead <= |file|
      invariant crc == Process(MASK, file[..totalRead])
      decreases |file| - totalRead
    {
      var currentRead := if |file| - totalRead >= CHUNK_SIZE then CHUNK_SIZE else |file| - totalRead;
      var chunk := file[totalRead..totalRead + currentRead];
      ProcessChunk(MASK, file, totalRead, totalRead + currentRead);
      crc := Process(crc, chunk);
      totalRead := totalRead + currentRead;
    }
    assert file[..totalRead] == file;
    return Final(crc);
  }
}
