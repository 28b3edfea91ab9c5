/**
 What the server keeps, as a value: the bytes on disk and the rows of table `fs`.
 Every request concerns one (username, path) pair, so its effect is a function of that pair's cell.
 */
module ServerStore {
  import opened Common
  import opened Crc32
  import opened Segments

  datatype Key = Key(user: string, path: string)

  datatype Metadata = Metadata(checksum: bv32, size: nat, lastWriteTime: int)

  /** The message fields default to zero when a row's columns are empty strings. */
  const NO_METADATA := Metadata(0, 0, 0)

  /** A row of `fs`; `seal` holds the columns hash, size and last_write_time, which one statement sets. */
  datatype Row = Row(lastSegment: int, seal: Option<Metadata>)

  datatype Cell = Cell(file: Option<seq<Byte>>, row: Option<Row>)

  const EMPTY_CELL := Cell(None, None)

  datatype Store = Store(disk: map<Key, seq<Byte>>, rows: map<Key, Row>)

  const EMPTY_STORE := Store(map[], map[])

  /** The segment of an UPLOAD request; `data` is the repeated bytes field. */
  datatype Segment = Segment(id: int, data: seq<seq<Byte>>, meta: Metadata)

  /** REMOVE and ABORT requests have the same effect. */
  datatype Request = Upload(key: Key, segment: Segment) | Discard(key: Key)

  datatype Outcome = Accepted | WrongSegment | InvalidChecksum

  datatype ReadOutcome = Data(bytes: seq<Byte>) | CannotReadFile | InvalidRead

  /** The key of the server's guard map. */
  function Token(user: string, path: string): string {
    user + ">" + path
  }

  /** Tokens tell apart files of users whose names have no '>' in them. */
  lemma TokensDiffer(user: string, path: string, user': string, path': string)
    requires '>' !in user && '>' !in user' && Token(user, path) == Token(user', path')
    ensures user == user' && path == path'
  {
    var token := Token(user, path);
    assert token[|user|] == '>' && token[|user'|] == '>';
    assert forall i | 0 <= i < |user| :: token[i] == user[i];
    assert forall i | 0 <= i < |user'| :: token[i] == user'[i];
    assert |user| == |user'|;
    assert user == token[..|user|] == user';
    assert path == token[|user| + 1..] == path';
  }

  function At(store: Store, key: Key): Cell {
    Cell(if key in store.disk then Some(store.disk[key]) else None,
         if key in store.rows then Some(store.rows[key]) else None)
  }

  function Put(store: Store, key: Key, cell: Cell): (store': Store)
    ensures At(store', key) == cell
    ensures forall other | other != key :: At(store', other) == At(store, other)
  {
    Store(if cell.file.Some? then store.disk[key := cell.file.value] else store.disk - {key},
          if cell.row.Some? then store.rows[key := cell.row.value] else store.rows - {key})
  }

  /** The segment that `write_file` lets through: the first, or the one after the last. */
  predicate InSequence(cell: Cell, segment: Segment) {
    segment.id == 0 || segment.id == (if cell.row.Some? then cell.row.value.lastSegment else 0) + 1
  }

  /** `write_file` up to the point where it stops unless the segment is the last one. */
  function Append(cell: Cell, segment: Segment): Cell {
    var written := if segment.id == 0 || cell.file.None? then [] else cell.file.value;
    Cell(Some(written + Flatten(segment.data)),
         if segment.id == 0 then Some(Row(0, None))
         else if cell.row.Some? then Some(cell.row.value.(lastSegment := segment.id))
         else None)
  }

  /** The end of `write_file`: the last segment seals the row or discards everything. */
  function Finish(cell: Cell, segment: Segment): (Cell, Outcome)
    requires cell.file.Some?
  {
    if CountSegments(segment.meta.size) != segment.id + 1 then (cell, Accepted)
    else
      var checksum := Checksum(cell.file.value);
      if checksum != segment.meta.checksum then (EMPTY_CELL, InvalidChecksum)
      else
        var seal := Metadata(checksum, segment.meta.size, segment.meta.lastWriteTime);
        (cell.(row := if cell.row.Some? then Some(cell.row.value.(seal := Some(seal))) else None), Accepted)
  }

  /** `write_file` on one cell. */
  function Write(cell: Cell, segment: Segment): (Cell, Outcome) {
    if !InSequence(cell, segment) then (cell, WrongSegment)
    else Finish(Append(cell, segment), segment)
  }

  /** The effect of a request on its cell. */
  function Respond(cell: Cell, request: Request): (Cell, Outcome) {
    match request
    case Upload(_, segment) => Write(cell, segment)
    case Discard(_) => (EMPTY_CELL, Accepted)
  }

  function Handle(store: Store, request: Request): (Store, Outcome) {
    var (cell, outcome) := Respond(At(store, request.key), request);
    (Put(store, request.key, cell), outcome)
  }

  /** `read_file_segment` on one cell; seeking to a negative offset makes the read return nothing. */
  function Read(cell: Cell, id: int): ReadOutcome {
    if cell.file.None? then CannotReadFile
    else
      var file := cell.file.value;
      var pos := id * MAX_SEGMENT;
      if pos > ToInt32(|file|) then InvalidRead
      else if pos < 0 then Data([])
      else Data(file[pos..if pos + MAX_SEGMENT <= |file| then pos + MAX_SEGMENT else |file|])
  }

  /** What a successful read returns: a piece of the file, whole or up to its end. */
  lemma ReadReturns(cell: Cell, id: int)
    ensures Read(cell, id) == CannotReadFile <==> cell.file.None?
    ensures Read(cell, id) == InvalidRead <==> cell.file.Some? && id * 1048576 > ToInt32(|cell.file.value|)
    ensures Read(cell, id).Data? && id < 0 ==> Read(cell, id).bytes == []
    ensures Read(cell, id).Data? && id >= 0 ==>
      exists before, after :: cell.file.value == before + Read(cell, id).bytes + after
        && |before| == id * 1048576
        && |Read(cell, id).bytes| <= 1048576
        && (after != [] ==> |Read(cell, id).bytes| == 1048576)
  {
    if Read(cell, id).Data? && id >= 0 {
      var file, pos := cell.file.value, id * 1048576;
      var end := pos + |Read(cell, id).bytes|;
      assert file == file[..pos] + Read(cell, id).bytes + file[end..];
    }
  }

  /** What a probe reports for a row. */
  function Reported(row: Row): Metadata {
    if row.seal.Some? then row.seal.value else NO_METADATA
  }

  /** `get_files`: the user's rows. */
  function Probe(store: Store, user: string): map<string, Metadata> {
    map path | path in (set key | key in store.rows && key.user == user :: key.path)
      :: Reported(store.rows[Key(user, path)])
  }

  lemma ProbeAt(store: Store, user: string, path: string)
    ensures path in Probe(store, user) <==> At(store, Key(user, path)).row.Some?
    ensures path in Probe(store, user) ==>
      Probe(store, user)[path] == Reported(At(store, Key(user, path)).row.value)
  {
    if Key(user, path) in store.rows {
      assert Key(user, path).path in (set key | key in store.rows && key.user == user :: key.path);
    }
  }

  lemma PutTwice(store: Store, key: Key, a: Cell, b: Cell)
    ensures Put(Put(store, key, a), key, b) == Put(store, key, b)
    ensures Put(store, key, At(store, key)) == store
  {
    SameCells(Put(Put(store, key, a), key, b), Put(store, key, b));
    SameCells(Put(store, key, At(store, key)), store);
  }

  /** Two stores with the same cells are the same store. */
  lemma SameCells(a: Store, b: Store)
    requires forall key :: At(a, key) == At(b, key)
    ensures a == b
  {
    forall key
      ensures key in a.disk <==> key in b.disk
      ensures key in a.disk ==> a.disk[key] == b.disk[key]
      ensures key in a.rows <==> key in b.rows
      ensures key in a.rows ==> a.rows[key] == b.rows[key]
    {
      assert At(a, key) == At(b, key);
    }
    assert a.disk == b.disk;
    assert a.rows == b.rows;
  }
}
