/** The bodies of the client's two loops, over the queue and the server as objects. */
module ClientLoops {
  import opened Common
  import opened Crc32
  import opened Segments
  import opened ServerStore
  import ServerHistory
  import opened FileSystemManager
  import Client = ClientFlow
  import opened QueueSpec
  import opened OutputQueue
  import opened BackupInvariant
  import opened UploadProtocol
  import opened Reconcile
  import Watcher = FileManager

  /** `update_handler` in `watcher_loop`; `isRegular` says whether the event's path is a regular file right now. */
  method UpdateHandler(queue: OutputQueue, event: Event, isRegular: bool)
    requires queue.Valid() && |queue.queue| < QUEUE_LIMIT
    modifies queue, queue.queue
    ensures queue.Valid()
    ensures queue.Contents() ==
      if !isRegular && !event.status.Removed? then old(queue.Contents())
      else Add(old(queue.Contents()), event.path, event.meta,
               if event.status.Removed? then RemoveCommand else UploadCommand)
  {
    if !isRegular && !event.status.Removed? {
      return;
    }
    var command := if event.status.Removed? then RemoveCommand else UploadCommand;
    queue.AddFileOperation(event.path, event.meta, command);
  }

  datatype Ending = Uploading(result: Client.UploadResult) | Removing

  /** What an ending means for the server's cell; an upload that has nothing to send succeeds without effect. */
  ghost predicate Ended(cell: Cell, cell': Cell, job: Job, ending: Ending) {
    match ending
    case Uploading(result) =>
      && job.command.UploadCommand?
      && (result.Skipped? ==> cell' == cell)
      && (result.Uploaded? ==> if Requests(job.meta.size) > 0 then Holds(cell', job) else cell' == cell)
      && (result.Aborted? ==> cell' == EMPTY_CELL)
    case Removing => job.command.RemoveCommand? && Holds(cell', job)
  }

  /** The local file of an operation. */
  function FileOf(files: map<string, Client.LocalFile>, job: Job): Option<Client.LocalFile> {
    if job.path in files then Some(files[job.path]) else None
  }

  /** When an operation ends with an upload. */
  ghost predicate EndsUploaded(files: map<string, Client.LocalFile>, job: Job, abort: nat -> bool) {
    && job.command.UploadCommand? && job.path in files
    && Client.UploadSucceeds(Some(files[job.path]), job.meta, abort)
  }

  /**
   The switch in `sender_loop`, in the absence of exceptions. `files` is the local directory, standing still;
   poll number `n` of the abort flag reads `abort(n)`.
   */
  method CarryOut(
      server: FileSystemManager, user: string, files: map<string, Client.LocalFile>, job: Job, abort: nat -> bool)
      returns (ending: Ending)
    modifies server
    ensures forall key | key != Key(user, job.path) :: At(server.Contents(), key) == old(At(server.Contents(), key))
    ensures Ended(
      old(At(server.Contents(), Key(user, job.path))), At(server.Contents(), Key(user, job.path)), job, ending)
    ensures ending == Uploading(Client.Uploaded) <==> EndsUploaded(files, job, abort)
  {
    var key := Key(user, job.path);
    match job.command {
      case UploadCommand =>
        var result := Client.UploadFile(server, key, FileOf(files, job), job.meta, abort);
        ending := Uploading(result);
      case RemoveCommand =>
        server.RemoveFile(key);
        ending := Removing;
    }
  }

  /**
   One turn of `sender_loop` that no other sender interrupts: the first ready operation is taken, carried
   out and removed.
   */
  method SenderTurn(queue: OutputQueue, server: FileSystemManager, user: string, files: map<string, Client.LocalFile>,
      abort: nat -> bool)
      returns (op: FileOperation?, ending: Ending)
    requires queue.Valid() && Inv(queue.Contents())
    modifies queue, queue.queue, server
    ensures queue.Valid() && Inv(queue.Contents())
    ensures op == null <==> old(FirstReady(queue.Contents().ops, queue.processingFiles) == |queue.queue|)
    ensures op == null ==> queue.Contents() == old(queue.Contents()) && server.Contents() == old(server.Contents())
    ensures op != null ==>
      && op == old(queue.queue[FirstReady(queue.Contents().ops, queue.processingFiles)])
      && queue.Contents() == Remove(Get(old(queue.Contents())), op.job.id)
      && (forall key | key != Key(user, op.job.path) :: At(server.Contents(), key) == old(At(server.Contents(), key)))
      && Ended(old(At(server.Contents(), Key(user, op.job.path))), At(server.Contents(), Key(user, op.job.path)),
               op.job, ending)
      && (ending == Uploading(Client.Uploaded) <==> EndsUploaded(files, op.job, abort))
  {
    hide Inv, Ended, EndsUploaded, Get, Remove, FirstReady, IndexOf, Held, At;
    ghost var q := queue.Contents();
    ending := Removing;
    op := queue.GetFileOperation();
    if op != null {
      GetKeepsInv(q);
      TakenIsHeld(q);
      ending := CarryOut(server, user, files, op.job, abort);
      RemoveKeepsInv(Get(q), op.job.id);
      var _ := queue.RemoveFileOperation(op.job.id);
    }
  }

  /** The operation a sender just took is found by its id, in process. */
  lemma TakenIsHeld(q: Queue)
    requires Inv(q) && FirstReady(q.ops, q.processingFiles) < |q.ops|
    ensures Held(Get(q), q.ops[FirstReady(q.ops, q.processingFiles)].job.id)
  {
    var n := FirstReady(q.ops, q.processingFiles);
    var ops := Get(q).ops;
    GetKeepsInv(q);
    var m := IndexOf(ops, q.ops[n].job.id);
    assert ops[n].job.id == q.ops[n].job.id;
    assert m == n;
  }

  // ---------- the watcher's startup ----------

  /** The watched directory, when it holds these files, written at these times. */
  function SnapshotOf(root: string, files: map<string, seq<Byte>>, times: string -> int): Watcher.Snapshot {
    map path | path in (set p | p in files :: Watcher.Join(root, p)) && Watcher.RemovePref(root, path) in files
      :: Watcher.File(files[Watcher.RemovePref(root, path)], times(Watcher.RemovePref(root, path)))
  }

  /** What a scan finds there, under relative paths. */
  function LocalView(root: string, files: map<string, seq<Byte>>, times: string -> int): map<string, Metadata> {
    map path | path in files && !Watcher.Mentions(Watcher.Join(root, path), Watcher.DS_STORE)
      :: MetadataOf(files[path], times(path))
  }

  lemma SnapshotAt(root: string, files: map<string, seq<Byte>>, times: string -> int, path: string)
    ensures var snapshot, file := SnapshotOf(root, files, times), Watcher.Join(root, path);
      && (file in snapshot <==> path in files)
      && (file in snapshot ==> snapshot[file] == Watcher.File(files[path], times(path)))
  {
    Watcher.RemovePrefInvertsJoin(root, path);
  }

  lemma ScanIsUnderRoot(root: string, files: map<string, seq<Byte>>, times: string -> int)
    ensures Watcher.UnderRoot(root, Watcher.Scan(SnapshotOf(root, files, times)).Keys)
  {
    hide Watcher.Mentions, MetadataOf;
    forall file | file in SnapshotOf(root, files, times)
      ensures Watcher.Join(root, Watcher.RemovePref(root, file)) == file
    {
      var p :| p in files && Watcher.Join(root, p) == file;
      Watcher.RemovePrefInvertsJoin(root, p);
    }
  }

  lemma ScanAt(root: string, files: map<string, seq<Byte>>, times: string -> int, path: string)
    ensures var scanned, view := Watcher.Scan(SnapshotOf(root, files, times)), LocalView(root, files, times);
      && (Watcher.Join(root, path) in scanned <==> path in view)
      && (path in view ==> scanned[Watcher.Join(root, path)] == view[path])
  {
    hide Watcher.Mentions, SnapshotOf, MetadataOf, Watcher.Join;
    SnapshotAt(root, files, times, path);
  }

  lemma ScanIsLocalView(root: string, files: map<string, seq<Byte>>, times: string -> int)
    ensures var scanned := Watcher.Scan(SnapshotOf(root, files, times));
      Watcher.UnderRoot(root, scanned.Keys) && Watcher.Relative(root, scanned) == LocalView(root, files, times)
  {
    hide Watcher.Relative, Watcher.UnderRoot, Watcher.Scan, SnapshotOf, LocalView, Watcher.Join;
    var scanned := Watcher.Scan(SnapshotOf(root, files, times));
    ScanIsUnderRoot(root, files, times);
    var relative, view := Watcher.Relative(root, scanned), LocalView(root, files, times);
    forall path
      ensures path in relative <==> path in view
      ensures path in view ==> relative[path] == view[path]
    {
      Watcher.RelativeAt(root, scanned, path);
      ScanAt(root, files, times, path);
    }
  }

  /** The files a probe lists were restored to `files`. */
  ghost predicate AllRestored(store: Store, user: string, files: map<string, seq<Byte>>) {
    var probe := Probe(store, user);
    forall path | path in probe && Requests(probe[path].size) > 0 ::
      path in files && Restore(At(store, Key(user, path)), probe[path]) == Restored(files[path])
  }

  ghost predicate SomeRestoreFails(store: Store, user: string) {
    var probe := Probe(store, user);
    exists path :: path in probe && Restore(At(store, Key(user, path)), probe[path]) == Failed
  }

  /** Local files that the server lacks are as they were, the others too or restored as far as could be read. */
  ghost predicate RestoredOrKept(
      store: Store, user: string, before: map<string, seq<Byte>>, after: map<string, seq<Byte>>)
  {
    forall path ::
      || Client.FileAt(after, path) == Client.FileAt(before, path)
      || (path in Probe(store, user)
          && Client.FileAt(after, path) == Client.LocalAfter(
               At(store, Key(user, path)), Probe(store, user)[path], Client.FileAt(before, path)))
  }

  /** After a restore only files the server lacks are due an event, and files that scans pass over. */
  function DueAfterRestore(
      root: string, probe: map<string, Metadata>, view: map<string, Metadata>, path: string): Option<Event>
  {
    if path in probe && Watcher.Mentions(Watcher.Join(root, path), Watcher.DS_STORE) then
      Some(Event(path, NO_METADATA, Removed))
    else if path !in probe && path in view then Some(Event(path, view[path], Created))
    else None
  }

  lemma RestoreLeavesNoDifference(
      root: string, store: Store, user: string, files: map<string, seq<Byte>>, times: string -> int, path: string)
    requires AllRestored(store, user, files)
    requires path in Probe(store, user) ==> Requests(Probe(store, user)[path].size) > 0
    ensures var probe, view := Probe(store, user), LocalView(root, files, times);
      EventFor(probe, view, path) == DueAfterRestore(root, probe, view, path)
  {
    hide Watcher.Mentions, Checksum, Collect, Probe;
  }

  /** Such a file: restored, passed over by the scan, and so due to be removed from the server. */
  lemma RestoredAndRemoved(root: string, user: string, times: string -> int) returns (store: Store)
    ensures ProbeAndRestore(store, user, Watcher.DS_STORE) == Restored([0])
    ensures EventFor(Probe(store, user), LocalView(root, map[Watcher.DS_STORE := [0]], times), Watcher.DS_STORE)
         == Some(Event(Watcher.DS_STORE, NO_METADATA, Removed))
  {
    var path := Watcher.DS_STORE;
    hide Checksum, Probe, ServerHistory.Run, ServerHistory.Outcomes, UploadExchange, Restore;
    store := ServerHistory.Run(EMPTY_STORE, UploadExchange(Key(user, path), [0], 7));
    CountableUploadThenRestore(EMPTY_STORE, user, path, [0], 7);
    assert Watcher.DS_STORE <= Watcher.Join(root, path)[|root| + 1..];
  }

  /** The restore option: false stands for an exception. */
  method RestoreFromServer(
      server: FileSystemManager, user: string, disk: Client.LocalDisk, serverFiles: map<string, Metadata>)
      returns (ok: bool)
    requires serverFiles == Probe(server.Contents(), user)
    modifies disk
    ensures ok <==> !SomeRestoreFails(server.Contents(), user)
    ensures ok ==> AllRestored(server.Contents(), user, disk.files)
    ensures RestoredOrKept(server.Contents(), user, old(disk.files), disk.files)
    ensures forall path | path in old(disk.files) :: path in disk.files
  {
    hide Probe, Restore, Client.LocalAfter, Client.FileAt;
    ok := disk.GetServerFiles(server, user, serverFiles);
  }

  /** Scan and comparison: None stands for the exception on an empty root. */
  method ScanAndCompare(
      manager: Watcher.FileManager, files: map<string, seq<Byte>>, times: string -> int,
      serverFiles: map<string, Metadata>)
      returns (result: Option<seq<Event>>)
    requires manager.files == map[]
    modifies manager
    ensures manager.files == Watcher.Scan(SnapshotOf(manager.root, files, times))
    ensures result.None? <==> manager.root == ""
    ensures result.Some? ==> Lists(result.value, serverFiles, LocalView(manager.root, files, times))
  {
    hide Lists, SnapshotOf, Watcher.Relative, Watcher.UnderRoot;
    manager.InitialScan(SnapshotOf(manager.root, files, times));
    assert manager.files == Watcher.Scan(SnapshotOf(manager.root, files, times));
    ScanIsLocalView(manager.root, files, times);
    result := manager.FileSystemCompare(serverFiles);
  }

  /**
   `watcher_loop` up to `start_monitoring`: probe, restore if wanted, scan, compare. None stands for an
   exception. A file found or restored at `path` has the write time `times(path)`.
   */
  method WatcherStartup(
      server: FileSystemManager, user: string, disk: Client.LocalDisk, manager: Watcher.FileManager, restore: bool,
      times: string -> int)
      returns (result: Option<seq<Event>>)
    requires manager.files == map[]
    modifies disk, manager
    ensures !restore ==> disk.files == old(disk.files)
    ensures RestoredOrKept(server.Contents(), user, old(disk.files), disk.files)
    ensures forall path | path in old(disk.files) :: path in disk.files
    ensures result.None? <==> (restore && SomeRestoreFails(server.Contents(), user)) || manager.root == ""
    ensures result.Some? ==>
      && manager.files == Watcher.Scan(SnapshotOf(manager.root, disk.files, times))
      && Lists(result.value, Probe(server.Contents(), user), LocalView(manager.root, disk.files, times))
    ensures result.Some? && restore ==>
      var probe, view := Probe(server.Contents(), user), LocalView(manager.root, disk.files, times);
      && AllRestored(server.Contents(), user, disk.files)
      && forall path | path in probe ==> Requests(probe[path].size) > 0 ::
           EventFor(probe, view, path) == DueAfterRestore(manager.root, probe, view, path)
  {
    hide Probe, EventFor, AllRestored, SomeRestoreFails, Lists, SnapshotOf, LocalView, DueAfterRestore, Requests;
    var serverFiles := server.GetFiles(user);
    if restore {
      var restored := RestoreFromServer(server, user, disk, serverFiles);
      if !restored {
        return None;
      }
    }
    result := ScanAndCompare(manager, disk.files, times, serverFiles);
    if restore {
      forall path | path in serverFiles ==> Requests(serverFiles[path].size) > 0
        ensures EventFor(serverFiles, LocalView(manager.root, disk.files, times), path)
             == DueAfterRestore(manager.root, serverFiles, LocalView(manager.root, disk.files, times), path)
      {
        RestoreLeavesNoDifference(manager.root, server.Contents(), user, disk.files, times, path);
      }
    }
  }
}
