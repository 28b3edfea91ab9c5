/** The server's file operations, step by step over the disk and the database table. */
module FileSystemManager {
  import opened Common
  import opened Crc32
  import opened Segments
  import opened RBHelpers
  import opened ServerStore

  class FileSystemManager {
    var disk: map<Key, seq<Byte>>
    var rows: map<Key, Row>

    function Contents(): Store
      reads this
    {
      Store(disk, rows)
    }

    constructor ()
      ensures Contents() == EMPTY_STORE
    {
      disk, rows := map[], map[];
    }

    /** The part of `write_file` that opens the file, truncating it for the first segment, and appends. */
    method AppendData(key: Key, segment: Segment)
      modifies this`disk
      ensures key in disk && disk == old(disk)[key := disk[key]]
      ensures disk[key] ==
        (if segment.id == 0 || key !in old(disk) then [] else old(disk)[key]) + Flatten(segment.data)
    {
      hide Flatten;
      if segment.id == 0 || key !in disk {
        disk := disk[key := []];
      }
      ghost var start := disk[key];
      FlattenNothing<Byte>();
      for i := 0 to |segment.data|
        invariant key in disk && disk[key] == start + Flatten(segment.data[..i])
        invariant disk == old(disk)[key := disk[key]]
      {
        FlattenUpTo(segment.data, i);
        disk := disk[key := disk[key] + segment.data[i]];
      }
      assert segment.data[..|segment.data|] == segment.data;
    }

    /** The part of `write_file` after the check of the segment number and before the last-segment test. */
    method RecordSegment(key: Key, segment: Segment)
      modifies this
      ensures Contents() == Put(old(Contents()), key, Append(old(At(Contents(), key)), segment))
    {
      AppendData(key, segment);
      if segment.id == 0 {
        rows := rows[key := Row(0, None)];
      } else if key in rows {
        rows := rows[key := rows[key].(lastSegment := segment.id)];
      }
      SameCells(Contents(), Put(old(Contents()), key, Append(old(At(Contents(), key)), segment)));
    }

    /** The part of `write_file` that seals the row, or cleans up when the checksum is wrong. */
    method FinishFile(key: Key, segment: Segment) returns (outcome: Outcome)
      requires key in disk
      modifies this
      ensures Contents() == Put(old(Contents()), key, Finish(old(At(Contents(), key)), segment).0)
      ensures outcome == Finish(old(At(Contents(), key)), segment).1
    {
      var numSegments := CountSegments(segment.meta.size);
      if numSegments != segment.id + 1 {
        PutTwice(Contents(), key, EMPTY_CELL, EMPTY_CELL);
        return Accepted;
      }
      var checksum := CalculateChecksum(disk[key]);
      if checksum != segment.meta.checksum {
        disk := disk - {key};
        rows := rows - {key};
        return InvalidChecksum;
      }
      if key in rows {
        rows := rows[key := rows[key].(seal := Some(
          Metadata(checksum, segment.meta.size, segment.meta.lastWriteTime)))];
      }
      SameCells(Contents(), Put(old(Contents()), key, Finish(old(At(Contents(), key)), segment).0));
      return Accepted;
    }

    /** `write_file` */
    method WriteFile(key: Key, segment: Segment) returns (outcome: Outcome)
      modifies this
      ensures (Contents(), outcome) == Handle(old(Contents()), Upload(key, segment))
    {
      ghost var store, cell := Contents(), At(Contents(), key);
      var lastSegment := 0;
      if key in rows {
        lastSegment := rows[key].lastSegment;
      }
      if segment.id != 0 && segment.id != lastSegment + 1 {
        PutTwice(store, key, cell, cell);
        return WrongSegment;
      }
      RecordSegment(key, segment);
      outcome := FinishFile(key, segment);
      PutTwice(store, key, Append(cell, segment), Finish(Append(cell, segment), segment).0);
    }

    /** `remove_file` */
    method RemoveFile(key: Key)
      modifies this
      ensures Contents() == Handle(old(Contents()), Discard(key)).0
    {
      disk := disk - {key};
      rows := rows - {key};
    }

    /** `read_file_segment` */
    method ReadFileSegment(key: Key, id: int) returns (outcome: ReadOutcome)
      ensures outcome == Read(At(Contents(), key), id)
    {
      var pos := id * MAX_SEGMENT;
      if key !in disk {
        return CannotReadFile;
      }
      var length := ToInt32(|disk[key]|);
      if pos > length {
        return InvalidRead;
      }
      if pos < 0 {
        return Data([]);
      }
      var count := if pos + MAX_SEGMENT <= |disk[key]| then MAX_SEGMENT else |disk[key]| - pos;
      return Data(disk[key][pos..pos + count]);
    }

    /** `get_files`: the result set is visited in no particular order. */
    method GetFiles(user: string) returns (files: map<string, Metadata>)
      ensures files == Probe(Contents(), user)
    {
      files := map[];
      var results := set key | key in rows && key.user == user;
      ghost var all := results;
      while results != {}
        invariant results <= all
        invariant forall path :: path in files <==> Key(user, path) in all - results
        invariant forall path | path in files :: files[path] == Reported(rows[Key(user, path)])
        decreases |results|
      {
        var key :| key in results;
        var meta := NO_METADATA;
        if rows[key].seal.Some? {
          meta := rows[key].seal.value;
        }
        files := files[key.path := meta];
        results := results - {key};
      }
      forall path
        ensures path in files <==> path in Probe(Contents(), user)
        ensures path in files ==> files[path] == Probe(Contents(), user)[path]
      {
        ProbeAt(Contents(), user, path);
      }
    }
  }
}
