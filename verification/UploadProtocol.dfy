/** How the requests of one upload or restore act on the server's cell. */
module UploadProtocol {
  import opened Common
  import opened Crc32
  import opened Segments
  import opened ServerStore
  import opened ServerHistory

  /** The cell after a complete upload; where the segment count is 0, as for an empty file, the row is never sealed. */
  function SealedCell(meta: Metadata, bytes: seq<Byte>): Cell {
    Cell(Some(bytes), Some(Row(Requests(meta.size) - 1, if CountSegments(meta.size) == 0 then None else Some(meta))))
  }

  /** The request for segment `i`: only the last one carries the checksum. */
  function UploadSegment(meta: Metadata, i: nat, data: seq<seq<Byte>>): (segment: Segment)
    ensures segment.id == i && segment.data == data
    ensures segment.meta.size == meta.size && segment.meta.lastWriteTime == meta.lastWriteTime
    ensures i + 1 == Requests(meta.size) ==> segment.meta.checksum == meta.checksum
    ensures i + 1 < Requests(meta.size) ==> segment.meta.checksum == 0
  {
    Segment(i, data, Metadata(if i == Requests(meta.size) - 1 then meta.checksum else 0, meta.size, meta.lastWriteTime))
  }

  /** The cell when `next` segments with contents `sent` have been accepted. */
  ghost predicate Received(cell: Cell, meta: Metadata, sent: seq<Byte>, next: nat) {
    if next == 0 then true
    else if next < Requests(meta.size) then cell == Cell(Some(sent), Some(Row(next - 1, None)))
    else cell == SealedCell(meta, sent)
  }

  lemma NextSegmentIsAccepted(cell: Cell, meta: Metadata, sent: seq<Byte>, next: nat, data: seq<seq<Byte>>)
    requires next < Requests(meta.size)
    requires Received(cell, meta, sent, next) && (next == 0 ==> sent == [])
    requires next == Requests(meta.size) - 1 ==> Checksum(sent + Flatten(data)) == meta.checksum
    ensures Write(cell, UploadSegment(meta, next, data)).1 == Accepted
    ensures Received(Write(cell, UploadSegment(meta, next, data)).0, meta, sent + Flatten(data), next + 1)
  {}

  // ---------- a whole upload ----------

  function SegmentOf(file: seq<Byte>, i: nat): seq<Byte>
    requires i < Requests(|file|)
  {
    SegmentEnd(|file|, i);
    file[i * MAX_SEGMENT..i * MAX_SEGMENT + SegmentLength(|file|, i)]
  }

  function MetadataOf(file: seq<Byte>, lastWriteTime: int): Metadata {
    Metadata(Checksum(file), |file|, lastWriteTime)
  }

  function SegmentRequest(key: Key, file: seq<Byte>, lastWriteTime: int, i: nat): Request
    requires i < Requests(|file|)
  {
    Upload(key, UploadSegment(MetadataOf(file, lastWriteTime), i, [SegmentOf(file, i)]))
  }

  /** The first `n` requests of an upload of `file`. */
  function SegmentRequests(key: Key, file: seq<Byte>, lastWriteTime: int, n: nat): seq<Request>
    requires n == 0 || n <= Requests(|file|)
  {
    if n == 0 then []
    else SegmentRequests(key, file, lastWriteTime, n - 1) + [SegmentRequest(key, file, lastWriteTime, n - 1)]
  }

  /** What the segments cover of a file: all of it, if its segment count is representable. */
  function UploadedPart(file: seq<Byte>): (part: seq<Byte>)
    ensures |part| == Covered(|file|)
    ensures part == file <==> Countable(|file|)
  {
    CoversFileIff(|file|);
    file[..Covered(|file|)]
  }

  /** The bytes of the first `n` segments. */
  function SentBytes(file: seq<Byte>, n: nat): (sent: seq<Byte>)
    requires n <= Requests(|file|)
    ensures n == Requests(|file|) ==> sent == UploadedPart(file)
    ensures n == 0 ==> sent == []
  {
    if n == Requests(|file|) then UploadedPart(file)
    else
      SegmentEnd(|file|, n);
      file[..n * MAX_SEGMENT]
  }

  lemma SentBytesGrow(file: seq<Byte>, n: nat)
    requires n < Requests(|file|)
    ensures SentBytes(file, n + 1) == SentBytes(file, n) + SegmentOf(file, n)
    ensures n * MAX_SEGMENT <= |file| && SentBytes(file, n) == file[..n * MAX_SEGMENT]
  {
    var from, to := n * MAX_SEGMENT, n * MAX_SEGMENT + SegmentLength(|file|, n);
    SegmentEnd(|file|, n);
    SentBytesAre(file, n);
    assert SentBytes(file, n + 1) == file[..to];
    assert SegmentOf(file, n) == file[from..to];
    hide SentBytes, SegmentOf, SegmentLength, Requests;
    assert file[..from] + file[from..to] == file[..to];
  }

  lemma SentBytesAre(file: seq<Byte>, n: nat)
    requires n < Requests(|file|)
    ensures n * MAX_SEGMENT <= |file| && SentBytes(file, n) == file[..n * MAX_SEGMENT]
  {
    SegmentEnd(|file|, n);
  }

  lemma SegmentRequestIsAccepted(cell: Cell, key: Key, file: seq<Byte>, lastWriteTime: int, i: nat)
    requires i < Requests(|file|)
    requires i == Requests(|file|) - 1 ==> Checksum(UploadedPart(file)) == Checksum(file)
    requires Received(cell, MetadataOf(file, lastWriteTime), SentBytes(file, i), i)
    ensures var (cell', outcome) := Respond(cell, SegmentRequest(key, file, lastWriteTime, i));
      && outcome == Accepted
      && Received(cell', MetadataOf(file, lastWriteTime), SentBytes(file, i + 1), i + 1)
  {
    var data := [SegmentOf(file, i)];
    SentBytesGrow(file, i);
    assert Flatten(data) == data[0] by {
      FlattenAppend([], data[0]);
      assert [] + data == data;
    }
    NextSegmentIsAccepted(cell, MetadataOf(file, lastWriteTime), SentBytes(file, i), i, data);
  }

  /** The requests were all accepted, left `cell` at `key`, and touched nothing else. */
  ghost predicate AllAccepted(store: Store, requests: seq<Request>, key: Key, cell: Cell) {
    && At(Run(store, requests), key) == cell
    && (forall i | 0 <= i < |requests| :: Outcomes(store, requests)[i] == Accepted)
    && (forall other | other != key :: At(Run(store, requests), other) == At(store, other))
  }

  lemma OneMoreAccepted(store: Store, requests: seq<Request>, key: Key, cell: Cell, request: Request)
    requires AllAccepted(store, requests, key, cell)
    requires request.key == key && Respond(cell, request).1 == Accepted
    ensures AllAccepted(store, requests + [request], key, Respond(cell, request).0)
  {
    RunOneMore(store, requests, request);
  }

  /** The first `n` requests of an upload were accepted and left `cell`. */
  ghost predicate UploadedSoFar(store: Store, key: Key, file: seq<Byte>, lastWriteTime: int, n: nat, cell: Cell)
    requires n <= Requests(|file|)
  {
    && AllAccepted(store, SegmentRequests(key, file, lastWriteTime, n), key, cell)
    && Received(cell, MetadataOf(file, lastWriteTime), SentBytes(file, n), n)
  }

  lemma NothingUploaded(store: Store, key: Key, file: seq<Byte>, lastWriteTime: int)
    requires 0 < Requests(|file|)
    ensures UploadedSoFar(store, key, file, lastWriteTime, 0, At(store, key))
  {}

  lemma SegmentRequestsGrow(key: Key, file: seq<Byte>, lastWriteTime: int, n: nat)
    requires n < Requests(|file|)
    ensures SegmentRequests(key, file, lastWriteTime, n + 1)
         == SegmentRequests(key, file, lastWriteTime, n) + [SegmentRequest(key, file, lastWriteTime, n)]
  {}

  lemma {:induction false} UploadOneMore(
      store: Store, key: Key, file: seq<Byte>, lastWriteTime: int, n: nat, cell: Cell)
    requires n < Requests(|file|)
    requires n == Requests(|file|) - 1 ==> Checksum(UploadedPart(file)) == Checksum(file)
    requires UploadedSoFar(store, key, file, lastWriteTime, n, cell)
    ensures UploadedSoFar(store, key, file, lastWriteTime, n + 1,
                     Respond(cell, SegmentRequest(key, file, lastWriteTime, n)).0)
  {
    hide SegmentRequests, UploadSegment, SegmentOf, MetadataOf, Received, AllAccepted, SentBytes, UploadedPart,
      Checksum, Respond, Requests;
    var requests, request := SegmentRequests(key, file, lastWriteTime, n), SegmentRequest(key, file, lastWriteTime, n);
    SegmentRequestsGrow(key, file, lastWriteTime, n);
    SegmentRequestIsAccepted(cell, key, file, lastWriteTime, n);
    OneMoreAccepted(store, requests, key, cell, request);
  }

  lemma {:induction false} UploadIsAccepted(store: Store, key: Key, file: seq<Byte>, lastWriteTime: int, n: nat)
      returns (cell: Cell)
    requires n <= Requests(|file|)
    requires n == Requests(|file|) ==> Checksum(UploadedPart(file)) == Checksum(file)
    ensures UploadedSoFar(store, key, file, lastWriteTime, n, cell)
  {
    hide *;
    if n == 0 {
      cell := At(store, key);
      NothingUploaded(store, key, file, lastWriteTime);
    } else {
      var before := UploadIsAccepted(store, key, file, lastWriteTime, n - 1);
      UploadOneMore(store, key, file, lastWriteTime, n - 1, before);
      cell := Respond(before, SegmentRequest(key, file, lastWriteTime, n - 1)).0;
    }
  }

  // ---------- a whole restore ----------

  /** An oversized probe can make the segment count wrap to a negative number; then nothing is requested. */
  datatype RestoreResult = Restored(file: seq<Byte>) | Failed | Untouched

  /** The bytes of the first `n` segments read back, unless a read fails. */
  function Collect(cell: Cell, n: nat): Option<seq<Byte>> {
    if n == 0 then Some([])
    else
      var before := Collect(cell, n - 1);
      var segment := Read(cell, n - 1);
      if before.None? || !segment.Data? then None else Some(before.value + segment.bytes)
  }

  /** What `get_server_files` restores for a file whose probe reported `meta`. */
  function Restore(cell: Cell, meta: Metadata): RestoreResult {
    if Requests(meta.size) <= 0 then Untouched
    else
      var file := Collect(cell, Requests(meta.size));
      if file.Some? && Checksum(file.value) == meta.checksum then Restored(file.value) else Failed
  }

  lemma {:induction false} CollectSlices(cell: Cell, file: seq<Byte>, n: nat)
    requires cell.file == Some(file) && Countable(|file|) && n <= Requests(|file|)
    ensures Collect(cell, n) ==
      if OffsetsAccepted(|file|, n) then Some(SentBytes(file, n)) else None
  {
    hide Read, Requests, SegmentOf, OffsetAccepted, Countable;
    if n > 0 {
      CollectSlices(cell, file, n - 1);
      ReadSlice(cell, file, n - 1);
      SentBytesGrow(file, n - 1);
    }
  }

  lemma ReadSlice(cell: Cell, file: seq<Byte>, i: nat)
    requires cell.file == Some(file) && Countable(|file|) && i < Requests(|file|)
    ensures Read(cell, i) == if OffsetAccepted(|file|, i) then Data(SegmentOf(file, i)) else InvalidRead
  {
    SegmentEnd(|file|, i);
  }

  /** Whatever is on disk, more than 2 GiB are never read back. */
  lemma {:induction false} CollectIsShort(cell: Cell, n: nat)
    requires Collect(cell, n).Some?
    ensures |Collect(cell, n).value| <= n * MAX_SEGMENT
    ensures n > 0 ==> (n - 1) * MAX_SEGMENT <= INT_MAX
  {
    if n > 0 {
      CollectIsShort(cell, n - 1);
    }
  }

  // ---------- an upload and a restore ----------

  /** All that `upload_file` sends for a file: an ABORT replaces a last segment whose checksum is wrong. */
  function UploadExchange(key: Key, file: seq<Byte>, lastWriteTime: int): seq<Request> {
    if Requests(|file|) <= 0 then []
    else if Checksum(UploadedPart(file)) == Checksum(file) then
      SegmentRequests(key, file, lastWriteTime, Requests(|file|))
    else
      SegmentRequests(key, file, lastWriteTime, Requests(|file|) - 1) + [Discard(key)]
  }

  /**
   What an upload of any file leaves: as many requests as segments, if any, and the sealed file; or nothing, if
   the segments do not cover the file and have another checksum.
   */
  lemma {:induction false} ExchangeLeaves(store: Store, key: Key, file: seq<Byte>, lastWriteTime: int)
    ensures var requests := UploadExchange(key, file, lastWriteTime);
      && |requests| == (if Requests(|file|) < 0 then 0 else Requests(|file|))
      && (Requests(|file|) < 0 ==> Run(store, requests) == store)
      && (Requests(|file|) > 0 ==>
            At(Run(store, requests), key) ==
              if Checksum(UploadedPart(file)) == Checksum(file)
              then SealedCell(MetadataOf(file, lastWriteTime), UploadedPart(file))
              else EMPTY_CELL)
  {
    hide Checksum, SealedCell;
    if Requests(|file|) > 0 {
      ExchangeCounts(key, file, lastWriteTime, Requests(|file|));
      if Checksum(UploadedPart(file)) == Checksum(file) {
        var cell := UploadIsAccepted(store, key, file, lastWriteTime, Requests(|file|));
      } else {
        var sent := SegmentRequests(key, file, lastWriteTime, Requests(|file|) - 1);
        ExchangeCounts(key, file, lastWriteTime, Requests(|file|) - 1);
        RunOneMore(store, sent, Discard(key));
      }
    }
  }

  lemma {:induction false} ExchangeCounts(key: Key, file: seq<Byte>, lastWriteTime: int, n: nat)
    requires n == 0 || n <= Requests(|file|)
    ensures |SegmentRequests(key, file, lastWriteTime, n)| == n
  {
    if n > 0 {
      ExchangeCounts(key, file, lastWriteTime, n - 1);
    }
  }

  /** What a probe followed by a restore gives for one path; Untouched if the probe does not list it. */
  function ProbeAndRestore(store: Store, user: string, path: string): RestoreResult {
    var probe := Probe(store, user);
    if path in probe then Restore(At(store, Key(user, path)), probe[path]) else Untouched
  }

  /** Every request of the upload of a countable file is accepted; a restore then gives it back or fails. */
  lemma {:induction false} CountableUploadThenRestore(
      store: Store, user: string, path: string, file: seq<Byte>, lastWriteTime: int)
    requires Countable(|file|)
    ensures var requests := UploadExchange(Key(user, path), file, lastWriteTime);
      && (forall i | 0 <= i < |requests| :: Outcomes(store, requests)[i] == Accepted)
      && ProbeAndRestore(Run(store, requests), user, path) == if |file| <= INT_MAX then Restored(file) else Failed
  {
    var key, n := Key(user, path), Requests(|file|);
    assert UploadedPart(file) == file;
    var cell := UploadIsAccepted(store, key, file, lastWriteTime, n);
    var store' := Run(store, SegmentRequests(key, file, lastWriteTime, n));
    ProbeAt(store', user, path);
    EmptyChecksum();
    CountIsExactIff(|file|);
    CollectSlices(cell, file, n);
    OffsetsAcceptedIff(|file|);
    assert |file| == 0 ==> file == [];
  }

  /** Uploading any file and restoring it gives the file back exactly when it is shorter than 2 GiB. */
  lemma {:induction false} UploadThenRestore(
      store: Store, user: string, path: string, file: seq<Byte>, lastWriteTime: int)
    ensures var store' := Run(store, UploadExchange(Key(user, path), file, lastWriteTime));
      ProbeAndRestore(store', user, path) == Restored(file) <==> |file| <= INT_MAX
  {
    if Countable(|file|) {
      CountableUploadThenRestore(store, user, path, file, lastWriteTime);
    } else {
      HugeFilesAreNotRestored(Run(store, UploadExchange(Key(user, path), file, lastWriteTime)), user, path, file);
    }
  }

  lemma HugeFilesAreNotRestored(store: Store, user: string, path: string, file: seq<Byte>)
    requires !Countable(|file|)
    ensures ProbeAndRestore(store, user, path) != Restored(file)
  {
    if ProbeAndRestore(store, user, path) == Restored(file) {
      CollectIsShort(At(store, Key(user, path)), Requests(Probe(store, user)[path].size));
      assert false;
    }
  }

  /** Such a file: 2^31 bytes are uploaded without complaint and cannot be restored. */
  lemma {:induction false} TwoGibibytesAreNotRestored(store: Store, user: string, path: string, lastWriteTime: int)
      returns (file: seq<Byte>)
    ensures |file| == 0x8000_0000
    ensures var requests := UploadExchange(Key(user, path), file, lastWriteTime);
      && (forall i | 0 <= i < |requests| :: Outcomes(store, requests)[i] == Accepted)
      && ProbeAndRestore(Run(store, requests), user, path) == Failed
  {
    file := seq(0x8000_0000, _ => 0);
    CountableUploadThenRestore(store, user, path, file, lastWriteTime);
  }

  /** An empty file is uploaded in one segment where the segment count is 0: its row is listed, but never sealed. */
  lemma EmptyFileIsNotSealed(store: Store, user: string, path: string, lastWriteTime: int)
    ensures var store' := Run(store, UploadExchange(Key(user, path), [], lastWriteTime));
      At(store', Key(user, path)) == Cell(Some([]), Some(Row(0, None)))
  {
    var key := Key(user, path);
    assert Requests(0) == 1 && UploadedPart([]) == [];
    var cell := UploadIsAccepted(store, key, [], lastWriteTime, 1);
  }
}
