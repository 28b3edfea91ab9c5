/** The client's view of its directory: scanning, polling and comparing with the server. */
module FileManager {
  import opened Common
  import opened Crc32
  import opened ServerStore
  import opened UploadProtocol
  import opened RBHelpers
  import opened Reconcile

  /** What the file system holds at a path while it stands still. */
  datatype Node = File(bytes: seq<Byte>, lastWriteTime: int) | Other

  type Snapshot = map<string, Node>

  const DS_STORE := ".DS_Store"

  /** Regular files are watched unless `.DS_Store` occurs in their path. */
  predicate Eligible(snapshot: Snapshot, path: string) {
    path in snapshot && snapshot[path].File? && !Mentions(path, DS_STORE)
  }

  /** `path.find(text) != npos` */
  predicate Mentions(path: string, text: string) {
    exists i | 0 <= i <= |path| :: text <= path[i..]
  }

  /** A text is mentioned exactly where it is a part of the path. */
  lemma MentionsIff(path: string, text: string)
    ensures Mentions(path, text) <==> exists a, b :: path == a + text + b
  {
    if Mentions(path, text) {
      var i :| 0 <= i <= |path| && text <= path[i..];
      assert path == path[..i] + text + path[i + |text|..];
    }
    if a, b :| path == a + text + b {
      assert path[|a|..] == text + b;
    }
  }

  /** A path without the text's first character, such as one without a dot, mentions it nowhere. */
  lemma NoSuchCharacter(path: string, text: string)
    requires text != "" && text[0] !in path
    ensures !Mentions(path, text)
  {
    MentionsIff(path, text);
    forall a, b: string
      ensures path != a + text + b
    {
      assert (a + text + b)[|a|] == text[0];
    }
  }

  /** The metadata of the watched files. */
  function Scan(snapshot: Snapshot): map<string, Metadata> {
    map path | path in snapshot && Eligible(snapshot, path)
      :: MetadataOf(snapshot[path].bytes, snapshot[path].lastWriteTime)
  }

  /** The part of a scan that is done when `todo` is left. */
  ghost function ScanExcept(snapshot: Snapshot, todo: set<string>): map<string, Metadata> {
    map path | path in snapshot && path !in todo && Eligible(snapshot, path)
      :: MetadataOf(snapshot[path].bytes, snapshot[path].lastWriteTime)
  }

  lemma ScanOneMore(base: map<string, Metadata>, snapshot: Snapshot, todo: set<string>, path: string)
    requires path in todo && path in snapshot
    ensures base + ScanExcept(snapshot, todo - {path}) ==
      if Eligible(snapshot, path)
      then (base + ScanExcept(snapshot, todo))
             [path := MetadataOf(snapshot[path].bytes, snapshot[path].lastWriteTime)]
      else base + ScanExcept(snapshot, todo)
  {
    hide Mentions, MetadataOf;
  }

  lemma ScanStarts(snapshot: Snapshot)
    ensures ScanExcept(snapshot, snapshot.Keys) == map[]
  {}

  lemma ScanEnds(snapshot: Snapshot)
    ensures ScanExcept(snapshot, {}) == Scan(snapshot)
  {}

  /** A tracked path that still exists, but not as a watched file, stays tracked. */
  function Retained(tracked: map<string, Metadata>, snapshot: Snapshot): map<string, Metadata> {
    map path | path in tracked && path in snapshot && !Eligible(snapshot, path) :: tracked[path]
  }

  function Current(tracked: map<string, Metadata>, snapshot: Snapshot): map<string, Metadata> {
    Scan(snapshot) + Retained(tracked, snapshot)
  }

  /** A scan finds exactly the regular files whose path has no part ".DS_Store". */
  lemma ScanFindsIff(snapshot: Snapshot, path: string)
    ensures path in Scan(snapshot) <==>
      path in snapshot && snapshot[path].File? && !exists a, b :: path == a + ".DS_Store" + b
    ensures path in Scan(snapshot) ==>
      Scan(snapshot)[path] == MetadataOf(snapshot[path].bytes, snapshot[path].lastWriteTime)
  {
    hide Mentions, MetadataOf;
    MentionsIff(path, ".DS_Store");
  }

  /** A file that is not tracked yet is reported as created exactly if a scan finds it. */
  lemma NewFileIsReportedIff(tracked: map<string, Metadata>, snapshot: Snapshot, path: string)
    requires path !in tracked
    ensures EventFor(tracked, Current(tracked, snapshot), path) ==
      if path in Scan(snapshot) then Some(Event(path, Scan(snapshot)[path], Created)) else None
  {
    hide Mentions, MetadataOf;
  }

  lemma CurrentAt(tracked: map<string, Metadata>, snapshot: Snapshot, path: string)
    ensures Eligible(snapshot, path) ==>
      && path in Current(tracked, snapshot)
      && Current(tracked, snapshot)[path] == MetadataOf(snapshot[path].bytes, snapshot[path].lastWriteTime)
    ensures !Eligible(snapshot, path) ==>
      (path in Current(tracked, snapshot) <==> path in tracked && path in snapshot)
    ensures !Eligible(snapshot, path) && path in Current(tracked, snapshot) ==>
      Current(tracked, snapshot)[path] == tracked[path]
  {
    hide Mentions, Checksum;
  }

  // ---------- absolute and relative paths ----------

  function Join(root: string, relative: string): string {
    root + "/" + relative
  }

  /** `string_remove_pref`; `erase` past the end erases what there is. */
  function RemovePref(root: string, path: string): string {
    if |root| + 1 <= |path| then path[|root| + 1..] else ""
  }

  lemma RemovePrefInvertsJoin(root: string, relative: string)
    ensures RemovePref(root, Join(root, relative)) == relative
  {}

  /** Paths are joined by a slash. */
  lemma JoinedBySlash()
    ensures Join("/home/u", "report.txt") == "/home/u/report.txt"
    ensures RemovePref("/home/u", "/home/u/report.txt") == "report.txt"
    ensures RemovePref("/home/u", "/home") == ""
  {
    assert "/home/u/report.txt"[|"/home/u"| + 1..] == "report.txt";
  }

  ghost predicate UnderRoot(root: string, paths: set<string>) {
    forall path | path in paths :: Join(root, RemovePref(root, path)) == path
  }

  ghost function RelativePaths(root: string, paths: set<string>): set<string> {
    set path | path in paths :: RemovePref(root, path)
  }

  /** The same files under their relative paths. */
  ghost function Relative(root: string, files: map<string, Metadata>): map<string, Metadata>
    requires UnderRoot(root, files.Keys)
  {
    map relative | relative in RelativePaths(root, files.Keys) :: files[Join(root, relative)]
  }

  lemma RelativePathsAt(root: string, paths: set<string>, relative: string)
    requires UnderRoot(root, paths)
    ensures relative in RelativePaths(root, paths) <==> Join(root, relative) in paths
  {
    RemovePrefInvertsJoin(root, relative);
  }

  lemma RelativeKeys(root: string, files: map<string, Metadata>)
    requires UnderRoot(root, files.Keys)
    ensures Relative(root, files).Keys == RelativePaths(root, files.Keys)
  {}

  lemma RelativeAt(root: string, files: map<string, Metadata>, relative: string)
    requires UnderRoot(root, files.Keys)
    ensures relative in Relative(root, files) <==> Join(root, relative) in files
    ensures relative in Relative(root, files) ==> Relative(root, files)[relative] == files[Join(root, relative)]
  {
    RelativePathsAt(root, files.Keys, relative);
  }

  /** Deciding one more absolute path decides one more relative path. */
  lemma DecidePath(root: string, events: seq<Event>, before: map<string, Metadata>, after: map<string, Metadata>,
      others: set<string>, all: set<string>, seen: set<string>, path: string)
    requires UnderRoot(root, all) && seen <= all && path in all && path !in seen
    requires ListsOn(events, before, after, others + RelativePaths(root, seen))
    ensures RemovePref(root, path) in others ==>
      ListsOn(events, before, after, others + RelativePaths(root, seen + {path}))
    ensures RemovePref(root, path) !in others ==>
      ListsOn(Extend(events, EventFor(before, after, RemovePref(root, path))), before, after,
              others + RelativePaths(root, seen + {path}))
  {
    var relative := RemovePref(root, path);
    assert Join(root, relative) == path;
    RelativePathsAt(root, seen, relative);
    assert others + RelativePaths(root, seen + {path}) == (others + RelativePaths(root, seen)) + {relative};
    DecideOne(events, before, after, others + RelativePaths(root, seen), relative);
  }

  // ---------- what polls achieve ----------

  /** The tracked paths are the watched files exactly when no tracked path turned into something else. */
  lemma PollTracksFilesIff(tracked: map<string, Metadata>, snapshot: Snapshot)
    ensures Merge(tracked, Current(tracked, snapshot)).Keys == Scan(snapshot).Keys <==>
      forall path | path in tracked && path in snapshot :: Eligible(snapshot, path)
  {
    var merged := Merge(tracked, Current(tracked, snapshot));
    assert merged.Keys == Scan(snapshot).Keys + Retained(tracked, snapshot).Keys;
    if merged.Keys == Scan(snapshot).Keys {
      forall path | path in tracked && path in snapshot
        ensures Eligible(snapshot, path)
      {
        assert path in Retained(tracked, snapshot) ==> path in Scan(snapshot);
      }
    } else {
      var path :| path in Retained(tracked, snapshot) && path !in Scan(snapshot);
    }
  }

  /** Such a path: a tracked file was replaced by a directory. The poll says nothing, and tracks it still. */
  lemma DirectoryStaysTracked(path: string, meta: Metadata)
    ensures var tracked, snapshot := map[path := meta], map[path := Other];
      && path in Merge(tracked, Current(tracked, snapshot)) && path !in Scan(snapshot)
      && EventFor(tracked, Current(tracked, snapshot), path).None?
  {
    var tracked, snapshot: Snapshot := map[path := meta], map[path := Other];
    CurrentAt(tracked, snapshot, path);
  }

  /** After a poll a tracked checksum is current exactly unless the file changed without its write time. */
  lemma PollIsCurrent(tracked: map<string, Metadata>, snapshot: Snapshot, path: string)
    requires Eligible(snapshot, path)
    ensures var merged, checksum := Merge(tracked, Current(tracked, snapshot)), Checksum(snapshot[path].bytes);
      && path in merged
      && (merged[path].checksum == checksum <==>
            !(path in tracked && tracked[path].lastWriteTime == snapshot[path].lastWriteTime
              && tracked[path].checksum != checksum))
  {
    hide Checksum, Mentions;
    CurrentAt(tracked, snapshot, path);
  }

  /** Such a file: its only byte was changed without its write time. */
  lemma ChangeStaysUnnoticed(path: string)
    requires !Mentions(path, DS_STORE)
    ensures var tracked, snapshot := map[path := MetadataOf([0], 7)], map[path := File([1], 7)];
      && EventFor(tracked, Current(tracked, snapshot), path).None?
      && path in Merge(tracked, Current(tracked, snapshot))
      && Merge(tracked, Current(tracked, snapshot))[path].checksum != Checksum(snapshot[path].bytes)
  {
    var tracked, snapshot: Snapshot := map[path := MetadataOf([0], 7)], map[path := File([1], 7)];
    ChecksumsOfOneByte();
    CurrentAt(tracked, snapshot, path);
    hide Checksum, Mentions;
    PollIsCurrent(tracked, snapshot, path);
  }

  /** A second poll of a file system that stood still has nothing to report. */
  lemma SecondPollIsSilent(tracked: map<string, Metadata>, snapshot: Snapshot, path: string)
    ensures var merged := Merge(tracked, Current(tracked, snapshot));
      EventFor(merged, Current(merged, snapshot), path).None?
  {
    hide Mentions, MetadataOf;
    var merged := Merge(tracked, Current(tracked, snapshot));
    assert Retained(merged, snapshot) == Retained(tracked, snapshot);
    MergedIsInStep(tracked, Current(tracked, snapshot), path);
  }

  // ---------- the manager ----------

  class FileManager {
    const root: string
    var files: map<string, Metadata>

    constructor (root: string)
      ensures this.root == root && files == map[]
    {
      this.root := root;
      files := map[];
    }

    /** `initial_scan`: entries come in no particular order. */
    method InitialScan(snapshot: Snapshot)
      modifies this
      ensures files == old(files) + Scan(snapshot)
    {
      hide Mentions, Checksum, ScanExcept, Scan;
      ScanStarts(snapshot);
      ScanEnds(snapshot);
      var todo := snapshot.Keys;
      while todo != {}
        invariant todo <= snapshot.Keys
        invariant files == old(files) + ScanExcept(snapshot, todo)
        decreases todo
      {
        var path :| path in todo;
        ScanOneMore(old(files), snapshot, todo, path);
        if Eligible(snapshot, path) {
          var checksum := CalculateChecksum(snapshot[path].bytes);
          files := files[path := Metadata(checksum, |snapshot[path].bytes|, snapshot[path].lastWriteTime)];
        }
        todo := todo - {path};
      }
    }

    /** `file_system_compare` against the files a probe reported; None stands for the exception on an empty root. */
    method FileSystemCompare(server: map<string, Metadata>) returns (result: Option<seq<Event>>)
      requires UnderRoot(root, files.Keys)
      ensures result.None? <==> root == ""
      ensures result.Some? ==> Lists(result.value, server, Relative(root, files))
    {
      hide EventFor, ListsOn;
      if root == "" {
        return None;
      }
      var events := CompareServerFiles(server);
      events := CompareLocalFiles(server, events);
      result := Some(events);
    }

    /** The first loop: files the server has. */
    method CompareServerFiles(server: map<string, Metadata>) returns (events: seq<Event>)
      requires UnderRoot(root, files.Keys)
      ensures ListsOn(events, server, Relative(root, files), server.Keys)
    {
      hide ListsOn, Relative;
      ghost var local := Relative(root, files);
      NothingDecided(server, local);
      events := [];
      var todo := server.Keys;
      assert server.Keys - todo == {};
      while todo != {}
        invariant todo <= server.Keys
        invariant ListsOn(events, server, local, server.Keys - todo)
        decreases todo
      {
        var path :| path in todo;
        RelativeAt(root, files, path);
        DecideOne(events, server, local, server.Keys - todo, path);
        assert server.Keys - todo + {path} == server.Keys - (todo - {path});
        var filePath := Join(root, path);
        if filePath !in files {
          events := events + [Event(path, NO_METADATA, Removed)];
        } else if files[filePath].lastWriteTime != server[path].lastWriteTime
               && files[filePath].checksum != server[path].checksum {
          events := events + [Event(path, files[filePath], Modified)];
        }
        todo := todo - {path};
      }
      assert server.Keys - todo == server.Keys;
    }

    /** The second loop: files only the client has. */
    method CompareLocalFiles(server: map<string, Metadata>, events0: seq<Event>) returns (events: seq<Event>)
      requires UnderRoot(root, files.Keys)
      requires ListsOn(events0, server, Relative(root, files), server.Keys)
      ensures Lists(events, server, Relative(root, files))
    {
      hide ListsOn, Relative;
      ghost var local := Relative(root, files);
      events := events0;
      var todo := files.Keys;
      assert server.Keys + RelativePaths(root, files.Keys - todo) == server.Keys;
      while todo != {}
        invariant todo <= files.Keys
        invariant ListsOn(events, server, local, server.Keys + RelativePaths(root, files.Keys - todo))
        decreases todo
      {
        var filePath :| filePath in todo;
        var path := RemovePref(root, filePath);
        RelativeAt(root, files, path);
        DecidePath(root, events, server, local, server.Keys, files.Keys, files.Keys - todo, filePath);
        assert files.Keys - todo + {filePath} == files.Keys - (todo - {filePath});
        if path !in server {
          events := events + [Event(path, files[filePath], Created)];
        }
        todo := todo - {filePath};
      }
      assert files.Keys - todo == files.Keys;
      RelativeKeys(root, files);
    }

    /**
     One round of the loop in `start_monitoring` over a file system that stands still.
     The events carry relative paths.
     */
    method Poll(snapshot: Snapshot) returns (events: seq<Event>)
      requires UnderRoot(root, files.Keys) && UnderRoot(root, snapshot.Keys)
      modifies this
      ensures files == Merge(old(files), Current(old(files), snapshot)) && UnderRoot(root, files.Keys)
      ensures Lists(events, Relative(root, old(files)), Relative(root, Current(old(files), snapshot)))
      ensures Relative(root, files) == Replay(Relative(root, old(files)), events)
    {
      hide EventFor, ListsOn, Replay, Relative, PollLists;
      ghost var tracked, current := files, Current(files, snapshot);
      assert UnderRoot(root, current.Keys) && UnderRoot(root, files.Keys + snapshot.Keys);
      events := EraseVanished(snapshot);
      events := VisitEntries(snapshot, tracked, events);
      ReplayGivesMerge(Relative(root, tracked), Relative(root, current), events);
      RelativeMerge(root, tracked, current);
    }

    /** The loop of `start_monitoring`: each round finds the file system in some state. */
    method StartMonitoring(snapshots: seq<Snapshot>) returns (events: seq<Event>)
      requires UnderRoot(root, files.Keys)
      requires forall snapshot | snapshot in snapshots :: UnderRoot(root, snapshot.Keys)
      modifies this
      ensures UnderRoot(root, files.Keys)
      ensures Relative(root, files) == Replay(Relative(root, old(files)), events)
    {
      hide UnderRoot, Relative, Replay, Lists;
      events := [];
      ReplayNothing(Relative(root, files));
      for i := 0 to |snapshots|
        invariant UnderRoot(root, files.Keys)
        invariant Relative(root, files) == Replay(Relative(root, old(files)), events)
      {
        var polled := Poll(snapshots[i]);
        ReplayConcat(Relative(root, old(files)), events, polled);
        events := events + polled;
      }
    }

    /** The first loop of a poll: tracked files that no longer exist. */
    method EraseVanished(snapshot: Snapshot) returns (events: seq<Event>)
      requires UnderRoot(root, files.Keys) && UnderRoot(root, Current(files, snapshot).Keys)
      requires UnderRoot(root, files.Keys + snapshot.Keys)
      modifies this
      ensures files == old(files) - (old(files).Keys - snapshot.Keys)
      ensures PollLists(root, events, old(files), snapshot, old(files).Keys - snapshot.Keys)
    {
      hide PollLists, UnderRoot, Current;
      ghost var tracked, vanished := files, files.Keys - snapshot.Keys;
      events := [];
      NothingPolled(root, tracked, snapshot);
      var todo := files.Keys;
      ghost var seen: set<string> := {};
      while todo != {}
        invariant todo <= tracked.Keys && seen !! todo
        invariant seen <= vanished <= seen + todo
        invariant files == tracked - seen
        invariant PollLists(root, events, tracked, snapshot, seen)
        decreases todo
      {
        var path :| path in todo;
        todo := todo - {path};
        if path !in snapshot {
          VanishedEvent(root, tracked, snapshot, path);
          PollOne(root, events, tracked, snapshot, seen, path);
          events := events + [Event(RemovePref(root, path), NO_METADATA, Removed)];
          files := files - {path};
          seen := seen + {path};
        }
      }
      assert seen == vanished;
    }

    /** The second loop of a poll: created and modified files. */
    method VisitEntries(snapshot: Snapshot, ghost tracked: map<string, Metadata>, events0: seq<Event>)
        returns (events: seq<Event>)
      requires UnderRoot(root, tracked.Keys) && UnderRoot(root, Current(tracked, snapshot).Keys)
      requires UnderRoot(root, tracked.Keys + snapshot.Keys)
      requires files == tracked - (tracked.Keys - snapshot.Keys)
      requires PollLists(root, events0, tracked, snapshot, tracked.Keys - snapshot.Keys)
      modifies this
      ensures files == Merge(tracked, Current(tracked, snapshot))
      ensures Lists(events, Relative(root, tracked), Relative(root, Current(tracked, snapshot)))
    {
      hide PollLists, UnderRoot, Current, Visited, EntryVisited, EntryEvent;
      VisitedAtFirst(tracked, snapshot);
      events := events0;
      var todo := snapshot.Keys;
      ghost var seen := tracked.Keys - snapshot.Keys;
      while todo != {}
        invariant todo <= snapshot.Keys && seen == (tracked.Keys - snapshot.Keys) + (snapshot.Keys - todo)
        invariant Visited(files, tracked, snapshot, todo)
        invariant PollLists(root, events, tracked, snapshot, seen)
        decreases todo
      {
        var path :| path in todo;
        events := VisitAndList(snapshot, path, events, tracked, todo, seen);
        todo, seen := todo - {path}, seen + {path};
      }
      VisitedAll(files, tracked, snapshot, todo);
      EverythingDecided(root, events, tracked, snapshot, seen);
    }

    /** The body of that loop. */
    method VisitAndList(
        snapshot: Snapshot, path: string, events0: seq<Event>,
        ghost tracked: map<string, Metadata>, ghost todo: set<string>, ghost seen: set<string>)
        returns (events: seq<Event>)
      requires path in todo && todo <= snapshot.Keys
      requires seen == (tracked.Keys - snapshot.Keys) + (snapshot.Keys - todo)
      requires UnderRoot(root, tracked.Keys) && UnderRoot(root, Current(tracked, snapshot).Keys)
      requires UnderRoot(root, tracked.Keys + snapshot.Keys)
      requires Visited(files, tracked, snapshot, todo)
      requires PollLists(root, events0, tracked, snapshot, seen)
      modifies this
      ensures Visited(files, tracked, snapshot, todo - {path})
      ensures PollLists(root, events, tracked, snapshot, seen + {path})
    {
      hide PollLists, UnderRoot, Current, Visited, EntryVisited, EntryEvent;
      VisitedEvent(root, files, tracked, snapshot, todo, path);
      PollOne(root, events0, tracked, snapshot, seen, path);
      ghost var files0 := files;
      var event := VisitEntry(snapshot, path);
      VisitOne(files0, files, tracked, snapshot, todo, path);
      events := events0;
      if event.Some? {
        events := events + [event.value];
      }
    }

    /** What happens to one entry. */
    method VisitEntry(snapshot: Snapshot, path: string) returns (event: Option<Event>)
      requires path in snapshot
      modifies this
      ensures EntryVisited(old(files), files, snapshot, path)
      ensures event == EntryEvent(old(files), snapshot, path, RemovePref(root, path))
    {
      event := None;
      if Eligible(snapshot, path) {
        var file := snapshot[path];
        if path !in files {
          var checksum := CalculateChecksum(file.bytes);
          var meta := Metadata(checksum, |file.bytes|, file.lastWriteTime);
          files := files[path := meta];
          event := Some(Event(RemovePref(root, path), meta, Created));
        } else if files[path].lastWriteTime != file.lastWriteTime {
          var checksum := CalculateChecksum(file.bytes);
          if files[path].checksum != checksum {
            var meta := Metadata(checksum, |file.bytes|, file.lastWriteTime);
            files := files[path := meta];
            event := Some(Event(RemovePref(root, path), meta, Modified));
          }
        }
      }
    }
  }

  /** The effect of visiting one entry on the tracked files. */
  ghost predicate EntryVisited(
      files: map<string, Metadata>, files': map<string, Metadata>, snapshot: Snapshot, path: string)
    requires path in snapshot
  {
    if !Eligible(snapshot, path) then files' == files
    else
      var meta := MetadataOf(snapshot[path].bytes, snapshot[path].lastWriteTime);
      files' == if path in files && !Differs(files[path], meta) then files else files[path := meta]
  }

  ghost function EntryEvent(
      files: map<string, Metadata>, snapshot: Snapshot, path: string, relative: string): Option<Event>
    requires path in snapshot
  {
    if !Eligible(snapshot, path) then None
    else
      var meta := MetadataOf(snapshot[path].bytes, snapshot[path].lastWriteTime);
      if path !in files then Some(Event(relative, meta, Created))
      else if Differs(files[path], meta) then Some(Event(relative, meta, Modified))
      else None
  }

  /** The entries outside `todo` have been merged, the others are as they were. */
  ghost predicate Visited(
      files: map<string, Metadata>, tracked: map<string, Metadata>, snapshot: Snapshot, todo: set<string>) {
    forall path :: VisitedAt(files, tracked, Current(tracked, snapshot), path, path in todo)
  }

  ghost predicate VisitedAt(
      files: map<string, Metadata>, tracked: map<string, Metadata>, current: map<string, Metadata>,
      path: string, todo: bool)
  {
    var expected := if todo then tracked else Merge(tracked, current);
    (path in files <==> path in expected) && (path in files ==> files[path] == expected[path])
  }

  lemma VisitedAtFirst(tracked: map<string, Metadata>, snapshot: Snapshot)
    ensures Visited(tracked - (tracked.Keys - snapshot.Keys), tracked, snapshot, snapshot.Keys)
  {
    hide Current;
    forall path
      ensures VisitedAt(
        tracked - (tracked.Keys - snapshot.Keys), tracked, Current(tracked, snapshot), path, path in snapshot.Keys)
    {
      CurrentAt(tracked, snapshot, path);
      assert path !in snapshot ==> !Eligible(snapshot, path);
    }
  }

  lemma VisitOne(
      files: map<string, Metadata>, files': map<string, Metadata>, tracked: map<string, Metadata>, snapshot: Snapshot,
      todo: set<string>, path: string)
    requires Visited(files, tracked, snapshot, todo) && path in todo && path in snapshot
    requires EntryVisited(files, files', snapshot, path)
    ensures Visited(files', tracked, snapshot, todo - {path})
  {
    hide Current, Eligible, Checksum;
    CurrentAt(tracked, snapshot, path);
    assert VisitedAt(files, tracked, Current(tracked, snapshot), path, true);
    forall other
      ensures VisitedAt(files', tracked, Current(tracked, snapshot), other, other in todo - {path})
    {
      assert VisitedAt(files, tracked, Current(tracked, snapshot), other, other in todo);
    }
  }

  lemma VisitedAll(files: map<string, Metadata>, tracked: map<string, Metadata>, snapshot: Snapshot, todo: set<string>)
    requires Visited(files, tracked, snapshot, todo) && todo == {}
    ensures files == Merge(tracked, Current(tracked, snapshot))
  {
    hide Current;
    var merged := Merge(tracked, Current(tracked, snapshot));
    forall path
      ensures path in files <==> path in merged
      ensures path in files ==> files[path] == merged[path]
    {
      assert VisitedAt(files, tracked, Current(tracked, snapshot), path, path in todo);
    }
  }

  /** A tracked file that no longer exists is due an event that it was removed. */
  lemma VanishedEvent(root: string, tracked: map<string, Metadata>, snapshot: Snapshot, path: string)
    requires UnderRoot(root, tracked.Keys) && UnderRoot(root, Current(tracked, snapshot).Keys)
    requires path in tracked && path !in snapshot
    ensures EventFor(Relative(root, tracked), Relative(root, Current(tracked, snapshot)), RemovePref(root, path))
         == Some(Event(RemovePref(root, path), NO_METADATA, Removed))
  {
    hide Relative, Current;
    CurrentAt(tracked, snapshot, path);
    RelativeAt(root, tracked, RemovePref(root, path));
    RelativeAt(root, Current(tracked, snapshot), RemovePref(root, path));
  }

  /** The event of an entry not visited yet is the one that is due. */
  lemma {:induction false} VisitedEvent(
      root: string, files: map<string, Metadata>, tracked: map<string, Metadata>, snapshot: Snapshot,
      todo: set<string>, path: string)
    requires UnderRoot(root, tracked.Keys) && UnderRoot(root, Current(tracked, snapshot).Keys)
    requires UnderRoot(root, tracked.Keys + snapshot.Keys)
    requires Visited(files, tracked, snapshot, todo) && path in todo && path in snapshot
    ensures EventFor(Relative(root, tracked), Relative(root, Current(tracked, snapshot)), RemovePref(root, path))
         == EntryEvent(files, snapshot, path, RemovePref(root, path))
  {
    hide Relative, Current, Eligible, Checksum;
    CurrentAt(tracked, snapshot, path);
    assert path in tracked.Keys + snapshot.Keys;
    RelativeAt(root, tracked, RemovePref(root, path));
    RelativeAt(root, Current(tracked, snapshot), RemovePref(root, path));
    assert VisitedAt(files, tracked, Current(tracked, snapshot), path, path in todo);
  }

  /** The events a poll has to report for the absolute paths seen so far. */
  ghost predicate PollLists(
      root: string, events: seq<Event>, tracked: map<string, Metadata>, snapshot: Snapshot, seen: set<string>)
    requires UnderRoot(root, tracked.Keys) && UnderRoot(root, Current(tracked, snapshot).Keys)
  {
    ListsOn(events, Relative(root, tracked), Relative(root, Current(tracked, snapshot)), {} + RelativePaths(root, seen))
  }

  lemma NothingPolled(root: string, tracked: map<string, Metadata>, snapshot: Snapshot)
    requires UnderRoot(root, tracked.Keys) && UnderRoot(root, Current(tracked, snapshot).Keys)
    ensures PollLists(root, [], tracked, snapshot, {})
  {
    hide Relative, Current, ListsOn;
    NothingDecided(Relative(root, tracked), Relative(root, Current(tracked, snapshot)));
    assert {} + RelativePaths(root, {}) == {};
  }

  lemma PollOne(
      root: string, events: seq<Event>, tracked: map<string, Metadata>, snapshot: Snapshot, seen: set<string>,
      path: string)
    requires UnderRoot(root, tracked.Keys) && UnderRoot(root, Current(tracked, snapshot).Keys)
    requires UnderRoot(root, tracked.Keys + snapshot.Keys)
    requires seen <= tracked.Keys + snapshot.Keys && path in tracked.Keys + snapshot.Keys && path !in seen
    requires PollLists(root, events, tracked, snapshot, seen)
    ensures var event :=
        EventFor(Relative(root, tracked), Relative(root, Current(tracked, snapshot)), RemovePref(root, path));
      PollLists(root, Extend(events, event), tracked, snapshot, seen + {path})
  {
    hide Relative, Current, ListsOn;
    DecidePath(root, events, Relative(root, tracked), Relative(root, Current(tracked, snapshot)), {},
               tracked.Keys + snapshot.Keys, seen, path);
  }

  lemma EverythingDecided(
      root: string, events: seq<Event>, tracked: map<string, Metadata>, snapshot: Snapshot, all: set<string>)
    requires UnderRoot(root, tracked.Keys) && UnderRoot(root, Current(tracked, snapshot).Keys)
    requires UnderRoot(root, tracked.Keys + snapshot.Keys)
    requires all == (tracked.Keys - snapshot.Keys) + snapshot.Keys
    requires PollLists(root, events, tracked, snapshot, all)
    ensures Lists(events, Relative(root, tracked), Relative(root, Current(tracked, snapshot)))
  {
    hide Eligible, Relative;
    var before, after := Relative(root, tracked), Relative(root, Current(tracked, snapshot));
    assert all == tracked.Keys + snapshot.Keys;
    forall path | path in before.Keys + after.Keys
      ensures path in RelativePaths(root, all)
    {
      RelativePathsAt(root, all, path);
      RelativeAt(root, tracked, path);
      RelativeAt(root, Current(tracked, snapshot), path);
    }
  }

  lemma RelativeMerge(root: string, tracked: map<string, Metadata>, current: map<string, Metadata>)
    requires UnderRoot(root, tracked.Keys) && UnderRoot(root, current.Keys)
    ensures Relative(root, Merge(tracked, current)) == Merge(Relative(root, tracked), Relative(root, current))
  {
    hide Relative;
    forall path
      ensures path in Relative(root, Merge(tracked, current)) <==> path in Relative(root, current)
      ensures path in Relative(root, current) ==>
        Relative(root, Merge(tracked, current))[path] == Merge(Relative(root, tracked), Relative(root, current))[path]
    {
      RelativeAt(root, Merge(tracked, current), path);
      RelativeAt(root, tracked, path);
      RelativeAt(root, current, path);
    }
  }
}
