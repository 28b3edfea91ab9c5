/** The client's transfer loops, run against a server that answers each request before the next is sent. */
module ClientFlow {
  import opened Common
  import opened Crc32
  import opened Segments
  import opened RBHelpers
  import opened ServerStore
  import opened FileSystemManager
  import opened UploadProtocol

  const UPLOAD_CHUNK: nat := 2048

  datatype LocalFile = LocalFile(bytes: seq<Byte>, lastWriteTime: int)

  datatype UploadResult = Skipped | Uploaded | Aborted

  /** How often an upload of `size` bytes looks at the abort flag: once per chunk. */
  function Polls(size: nat): nat {
    (size + UPLOAD_CHUNK - 1) / UPLOAD_CHUNK
  }

  /** How much of a segment of this length has been read after so many chunks. */
  function ReadAfter(length: nat, chunks: nat): nat {
    if chunks * UPLOAD_CHUNK <= length then chunks * UPLOAD_CHUNK else length
  }

  lemma ReadAfterPoll(length: nat, chunks: nat)
    ensures ReadAfter(length, chunks) < length <==> chunks < Polls(length)
    ensures ReadAfter(length, chunks) < length ==>
      var left := length - ReadAfter(length, chunks);
      ReadAfter(length, chunks + 1) == length - left + if left >= UPLOAD_CHUNK then UPLOAD_CHUNK else left
  {}

  /** A chunk has 2048 bytes, so the abort flag is looked at 512 times in a full segment of 1 MiB. */
  lemma PollsOfFullSegment(chunks: nat)
    ensures Polls(1048576) == 512
    ensures ReadAfter(1048576, chunks) == if chunks <= 512 then chunks * 2048 else 1048576
  {}

  ghost predicate NeverAborted(abort: nat -> bool, from: nat, to: nat) {
    forall poll | from <= poll < to :: !abort(poll)
  }

  /** When an upload is carried out to its end; poll number `n` of the abort flag reads `abort(n)`. */
  ghost predicate UploadSucceeds(file: Option<LocalFile>, meta: Metadata, abort: nat -> bool) {
    && file.Some? && |file.value.bytes| == meta.size && file.value.lastWriteTime == meta.lastWriteTime
    && (Requests(meta.size) > 0 ==>
          && Checksum(UploadedPart(file.value.bytes)) == meta.checksum
          && NeverAborted(abort, 0, Polls(Covered(meta.size))))
  }

  /** One more chunk of `part`, which has been read up to `from`. */
  lemma ChunkRead(part: seq<Byte>, from: nat, to: nat, data: seq<seq<Byte>>, crc0: Register)
    requires from <= to <= |part| && Flatten(data) == part[..from]
    ensures Flatten(data + [part[from..to]]) == part[..to]
    ensures Process(Process(crc0, part[..from]), part[from..to]) == Process(crc0, part[..to])
  {
    hide Process, Flatten;
    FlattenAppend(data, part[from..to]);
    ProcessChunk(crc0, part, from, to);
    assert part[..from] + part[from..to] == part[..to];
  }

  /**
   The inner loop of `upload_file`: reads one segment chunk by chunk, feeding the running checksum,
   and gives up when a poll of the abort flag succeeds.
   */
  method ReadSegment(part: seq<Byte>, crc0: Register, poll0: nat, abort: nat -> bool)
      returns (complete: bool, data: seq<seq<Byte>>, crc: Register, poll: nat)
    ensures complete <==> NeverAborted(abort, poll0, poll0 + Polls(|part|))
    ensures complete ==>
      && Flatten(data) == part
      && crc == Process(crc0, part)
      && poll == poll0 + Polls(|part|)
  {
    hide Process, Flatten, Polls;
    ProcessNothing(crc0);
    FlattenNothing<Byte>();
    data, crc, poll := [], crc0, poll0;
    var totalRead := 0;
    while totalRead < |part|
      invariant poll0 <= poll <= poll0 + Polls(|part|)
      invariant totalRead == ReadAfter(|part|, poll - poll0)
      invariant NeverAborted(abort, poll0, poll)
      invariant Flatten(data) == part[..totalRead]
      invariant crc == Process(crc0, part[..totalRead])
      decreases |part| - totalRead
    {
      ReadAfterPoll(|part|, poll - poll0);
      if abort(poll) {
        return false, data, crc, poll;
      }
      var currentRead := if |part| - totalRead >= UPLOAD_CHUNK then UPLOAD_CHUNK else |part| - totalRead;
      var chunk := part[totalRead..totalRead + currentRead];
      ChunkRead(part, totalRead, totalRead + currentRead, data, crc0);
      data := data + [chunk];
      crc := Process(crc, chunk);
      totalRead, poll := totalRead + currentRead, poll + 1;
    }
    ReadAfterPoll(|part|, poll - poll0);
    assert part[..totalRead] == part;
    complete := true;
  }

  /** The polls made before segment `i`. */
  function PollsBefore(size: nat, i: nat): nat {
    if i < Requests(size) then i * (MAX_SEGMENT / UPLOAD_CHUNK) else Polls(Covered(size))
  }

  lemma PollsOfSegment(size: nat, i: nat)
    requires i < Requests(size)
    ensures PollsBefore(size, i) + Polls(SegmentLength(size, i)) == PollsBefore(size, i + 1)
    ensures PollsBefore(size, i + 1) <= Polls(Covered(size))
  {
    SegmentEnd(size, i);
  }

  /** The body of the outer loop of `upload_file`; false stands for an exception. */
  method SendSegment(
      server: FileSystemManager, key: Key, bytes: seq<Byte>, meta: Metadata, i: nat, crc0: Register, abort: nat -> bool)
      returns (complete: bool, crc: Register)
    requires |bytes| == meta.size && i < Requests(|bytes|)
    requires crc0 == Process(MASK, SentBytes(bytes, i))
    requires Received(At(server.Contents(), key), meta, SentBytes(bytes, i), i)
    modifies server
    ensures forall other | other != key :: At(server.Contents(), other) == old(At(server.Contents(), other))
    ensures complete <==>
      && NeverAborted(abort, PollsBefore(|bytes|, i), PollsBefore(|bytes|, i + 1))
      && (i == Requests(|bytes|) - 1 ==> meta.checksum == Checksum(UploadedPart(bytes)))
    ensures complete ==>
      && crc == Process(MASK, SentBytes(bytes, i + 1))
      && Received(At(server.Contents(), key), meta, SentBytes(bytes, i + 1), i + 1)
  {
    hide Process, Received, Write, Flatten, Polls, NeverAborted, PollsBefore;
    PollsOfSegment(|bytes|, i);
    SegmentEnd(|bytes|, i);
    SentBytesGrow(bytes, i);
    var part := bytes[i * MAX_SEGMENT..i * MAX_SEGMENT + SegmentLength(|bytes|, i)];
    var data, poll;
    complete, data, crc, poll := ReadSegment(part, crc0, PollsBefore(|bytes|, i), abort);
    if !complete {
      return;
    }
    ProcessConcat(MASK, SentBytes(bytes, i), part);
    if i == Requests(|bytes|) - 1 && Final(crc) != meta.checksum {
      return false, crc;
    }
    NextSegmentIsAccepted(At(server.Contents(), key), meta, SentBytes(bytes, i), i, data);
    var outcome := server.WriteFile(key, UploadSegment(meta, i, data));
    complete := outcome == Accepted;
  }

  /**
   The outer loop of `upload_file`: false stands for the exception that leads to an ABORT request.
   A segment count that wrapped to a negative number means that nothing is sent.
   */
  method SendSegments(server: FileSystemManager, key: Key, bytes: seq<Byte>, meta: Metadata, abort: nat -> bool)
      returns (complete: bool)
    requires |bytes| == meta.size
    modifies server
    ensures forall other | other != key :: At(server.Contents(), other) == old(At(server.Contents(), other))
    ensures Requests(|bytes|) <= 0 ==> complete && server.Contents() == old(server.Contents())
    ensures Requests(|bytes|) > 0 ==>
      (complete <==>
        meta.checksum == Checksum(UploadedPart(bytes)) && NeverAborted(abort, 0, Polls(Covered(|bytes|))))
    ensures Requests(|bytes|) > 0 && complete ==>
      At(server.Contents(), key) == SealedCell(meta, UploadedPart(bytes))
  {
    var numSegments := CountSegments(|bytes|);
    if numSegments == 0 {
      numSegments := numSegments + 1;
    }
    if numSegments < 0 {
      return true;
    }
    hide Process, Checksum, Requests, Received, Polls, PollsBefore, SentBytes, UploadedPart, Covered, At, SealedCell;
    NothingSentYet(At(server.Contents(), key), bytes, meta);
    var crc := MASK;
    for i := 0 to numSegments
      invariant numSegments == Requests(|bytes|)
      invariant crc == Process(MASK, SentBytes(bytes, i))
      invariant NeverAborted(abort, 0, PollsBefore(|bytes|, i))
      invariant i == numSegments ==> meta.checksum == Checksum(UploadedPart(bytes))
      invariant Received(At(server.Contents(), key), meta, SentBytes(bytes, i), i)
      invariant forall other | other != key :: At(server.Contents(), other) == old(At(server.Contents(), other))
    {
      PollsOfSegment(|bytes|, i);
      complete, crc := SendSegment(server, key, bytes, meta, i, crc, abort);
      if !complete {
        return;
      }
    }
    EverythingSent(At(server.Contents(), key), bytes, meta);
    complete := true;
  }

  lemma NothingSentYet(cell: Cell, bytes: seq<Byte>, meta: Metadata)
    requires 0 < Requests(|bytes|)
    ensures Process(MASK, SentBytes(bytes, 0)) == MASK
    ensures Received(cell, meta, SentBytes(bytes, 0), 0) && PollsBefore(|bytes|, 0) == 0
  {}

  lemma EverythingSent(cell: Cell, bytes: seq<Byte>, meta: Metadata)
    requires 0 < Requests(|bytes|) && |bytes| == meta.size
    requires Received(cell, meta, SentBytes(bytes, Requests(|bytes|)), Requests(|bytes|))
    ensures cell == SealedCell(meta, UploadedPart(bytes))
    ensures PollsBefore(|bytes|, Requests(|bytes|)) == Polls(Covered(|bytes|))
  {}

  /** `upload_file` with the file standing still; poll number `n` of the abort flag reads `abort(n)`. */
  method UploadFile(server: FileSystemManager, key: Key, file: Option<LocalFile>, meta: Metadata, abort: nat -> bool)
      returns (result: UploadResult)
    modifies server
    ensures forall other | other != key :: At(server.Contents(), other) == old(At(server.Contents(), other))
    ensures result == Skipped <==>
      file.None? || |file.value.bytes| != meta.size || file.value.lastWriteTime != meta.lastWriteTime
    ensures result == Skipped ==> server.Contents() == old(server.Contents())
    ensures result == Uploaded <==> UploadSucceeds(file, meta, abort)
    ensures result == Uploaded ==>
      if Requests(meta.size) > 0
      then At(server.Contents(), key) == SealedCell(meta, UploadedPart(file.value.bytes))
      else server.Contents() == old(server.Contents())
    ensures result == Aborted ==> At(server.Contents(), key) == EMPTY_CELL
  {
    if file.None? {
      return Skipped;
    }
    if |file.value.bytes| != meta.size || file.value.lastWriteTime != meta.lastWriteTime {
      return Skipped;
    }
    var complete := SendSegments(server, key, file.value.bytes, meta, abort);
    if !complete {
      server.RemoveFile(key);
      return Aborted;
    }
    result := Uploaded;
  }

  /** The client's directory, into which files are restored. */
  class LocalDisk {
    var files: map<string, seq<Byte>>

    constructor (files: map<string, seq<Byte>>)
      ensures this.files == files
    {
      this.files := files;
    }

    /** One turn of the outer loop of `get_server_files`; false stands for an exception. */
    method RestoreFile(server: FileSystemManager, user: string, path: string, meta: Metadata)
        returns (ok: bool)
      modifies this
      ensures ok <==> Restore(At(server.Contents(), Key(user, path)), meta) != Failed
      ensures FileAt(files, path) ==
        LocalAfter(At(server.Contents(), Key(user, path)), meta, FileAt(old(files), path))
      ensures forall other | other != path :: FileAt(files, other) == FileAt(old(files), other)
      ensures path in old(files) ==> path in files
      ensures Restore(At(server.Contents(), Key(user, path)), meta).Restored? ==>
        path in files && files[path] == Restore(At(server.Contents(), Key(user, path)), meta).file
      ensures Restore(At(server.Contents(), Key(user, path)), meta).Untouched? ==> files == old(files)
    {
      hide Process, Read;
      ghost var cell := At(server.Contents(), Key(user, path));
      var numSegments := CountSegments(meta.size);
      if numSegments == 0 {
        numSegments := numSegments + 1;
      }
      var i := 0;
      while i < numSegments
        invariant 0 <= i && (if 0 < numSegments then i <= numSegments else i == 0)
        invariant numSegments == Requests(meta.size)
        invariant i == 0 ==> files == old(files)
        invariant i > 0 ==> path in files && Collect(cell, i) == Some(files[path])
        invariant i > 0 && i == numSegments ==> Checksum(files[path]) == meta.checksum
        invariant forall other | other != path :: FileAt(files, other) == FileAt(old(files), other)
      {
        var response := server.ReadFileSegment(Key(user, path), i);
        if !response.Data? {
          CollectFails(cell, i, numSegments);
          ReadableUpTo(cell, i, numSegments);
          return false;
        }
        if i == 0 {
          files := files[path := []];
        }
        files := files[path := files[path] + response.bytes];
        i := i + 1;
        assert Collect(cell, i) == Some(files[path]);
        if i == numSegments {
          ReadableAll(cell, i);
          var checksum := CalculateChecksum(files[path]);
          if checksum != meta.checksum {
            return false;
          }
        }
      }
      if 0 < numSegments {
        ReadableAll(cell, numSegments);
      }
      ok := true;
    }

    /** `get_server_files`: the files of the probe are restored in no particular order. */
    method GetServerFiles(server: FileSystemManager, user: string, serverMap: map<string, Metadata>)
        returns (ok: bool)
      modifies this
      ensures ok <==>
        forall path | path in serverMap :: Restore(At(server.Contents(), Key(user, path)), serverMap[path]) != Failed
      ensures forall path | path !in serverMap :: FileAt(files, path) == FileAt(old(files), path)
      ensures forall path | path in old(files) :: path in files
      ensures forall path | path in serverMap ::
        || FileAt(files, path) ==
             LocalAfter(At(server.Contents(), Key(user, path)), serverMap[path], FileAt(old(files), path))
        || (!ok && FileAt(files, path) == FileAt(old(files), path))
      ensures ok ==> forall path | path in serverMap && Requests(serverMap[path].size) > 0 ::
        path in files && Restore(At(server.Contents(), Key(user, path)), serverMap[path]) == Restored(files[path])
    {
      hide LocalAfter, Restore, Requests;
      ghost var store := server.Contents();
      var todo := serverMap.Keys;
      while todo != {}
        invariant todo <= serverMap.Keys
        invariant forall path | path in serverMap && path !in todo ::
          Restore(At(store, Key(user, path)), serverMap[path]) != Failed
        invariant forall path | path in serverMap && path !in todo ::
          FileAt(files, path) == LocalAfter(At(store, Key(user, path)), serverMap[path], FileAt(old(files), path))
        invariant forall path | path !in serverMap || path in todo :: FileAt(files, path) == FileAt(old(files), path)
        invariant forall path :: FileAt(old(files), path).Some? ==> FileAt(files, path).Some?
        decreases |todo|
      {
        var path :| path in todo;
        var restored := RestoreFile(server, user, path, serverMap[path]);
        if !restored {
          NothingVanished(old(files), files);
          return false;
        }
        todo := todo - {path};
      }
      ok := true;
      NothingVanished(old(files), files);
      forall path | path in serverMap && Requests(serverMap[path].size) > 0
        ensures path in files && Restore(At(store, Key(user, path)), serverMap[path]) == Restored(files[path])
      {
        RestoredIsLocal(At(store, Key(user, path)), serverMap[path], FileAt(old(files), path));
      }
    }
  }

  /** A file of the local directory, if it is there. */
  function FileAt(files: map<string, seq<Byte>>, path: string): Option<seq<Byte>> {
    if path in files then Some(files[path]) else None
  }

  lemma NothingVanished(before: map<string, seq<Byte>>, after: map<string, seq<Byte>>)
    requires forall path :: FileAt(before, path).Some? ==> FileAt(after, path).Some?
    ensures forall path | path in before :: path in after
  {
    forall path | path in before
      ensures path in after
    {
      assert FileAt(before, path).Some?;
    }
  }

  /** How many of the first `n` segments can be read before a read fails. */
  function Readable(cell: Cell, n: nat): (k: nat)
    ensures k <= n && Collect(cell, k).Some?
    ensures k < n ==> !Read(cell, k).Data?
  {
    if n == 0 then 0
    else
      var k := Readable(cell, n - 1);
      if k == n - 1 && Read(cell, k).Data? then n else k
  }

  /** The local file after an attempt to restore it: what was read of it, and what was there if nothing was read. */
  ghost function LocalAfter(cell: Cell, meta: Metadata, before: Option<seq<Byte>>): (after: Option<seq<Byte>>)
    ensures before.Some? ==> after.Some?
  {
    if Requests(meta.size) <= 0 || Readable(cell, Requests(meta.size)) == 0 then before
    else Collect(cell, Readable(cell, Requests(meta.size)))
  }

  lemma {:induction false} ReadableUpTo(cell: Cell, i: nat, n: nat)
    requires i < n && Collect(cell, i).Some? && !Read(cell, i).Data?
    ensures Readable(cell, n) == i
  {
    var k := Readable(cell, n);
    if k < i {
      CollectFails(cell, k, i);
    } else if k > i {
      CollectFails(cell, i, k);
    }
  }

  lemma ReadableAll(cell: Cell, n: nat)
    requires Collect(cell, n).Some?
    ensures Readable(cell, n) == n
  {
    if Readable(cell, n) < n {
      CollectFails(cell, Readable(cell, n), n);
    }
  }

  lemma RestoredIsLocal(cell: Cell, meta: Metadata, before: Option<seq<Byte>>)
    requires Restore(cell, meta) != Failed && Requests(meta.size) > 0
    ensures LocalAfter(cell, meta, before).Some?
    ensures Restore(cell, meta) == Restored(LocalAfter(cell, meta, before).value)
  {
    ReadableAll(cell, Requests(meta.size));
  }

  /** A failed read spoils every later prefix. */
  lemma {:induction false} CollectFails(cell: Cell, i: nat, n: nat)
    requires i < n && !Read(cell, i).Data?
    ensures Collect(cell, n) == None
  {
    if i < n - 1 {
      CollectFails(cell, i, n - 1);
    }
  }

  /** A file of 2 GiB on the server: its restore fails at once, and the local file stays as it was. */
  lemma LocalFileSurvives(cell: Cell, meta: Metadata, before: Option<seq<Byte>>)
    requires cell.file.Some? && |cell.file.value| == 0x8000_0000 && Requests(meta.size) > 0
    ensures Restore(cell, meta) == Failed && LocalAfter(cell, meta, before) == before
  {
    assert Read(cell, 0) == InvalidRead;
    CollectFails(cell, 0, Requests(meta.size));
    if Readable(cell, Requests(meta.size)) > 0 {
      CollectFails(cell, 0, Readable(cell, Requests(meta.size)));
    }
  }
}
