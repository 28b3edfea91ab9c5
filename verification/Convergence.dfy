/** Startup as a whole: probe, compare, queue the differences, drain the queue. */
module Convergence {
  import opened Common
  import opened Crc32
  import opened Segments
  import opened ServerStore
  import opened UploadProtocol
  import Queue = QueueSpec
  import opened BackupSystem
  import opened BackupInvariant
  import opened BackupTheorems
  import opened Reconcile

  /** `update_handler`: the operation that is queued for an event. */
  function Handled(event: Event): Action {
    AddOp(event.path, event.meta, if event.status.Removed? then Queue.RemoveCommand else Queue.UploadCommand)
  }

  /** The watcher added exactly the operations for these events, in this order. */
  ghost predicate AddsEvents(actions: seq<Action>, events: seq<Event>) {
    && |Added(actions)| == |events|
    && forall i | 0 <= i < |events| :: Added(actions)[i] == Handled(events[i])
  }

  ghost predicate IsJobOf(job: Queue.Job, event: Event) {
    job.path == event.path && job.meta == event.meta
    && job.command == if event.status.Removed? then Queue.RemoveCommand else Queue.UploadCommand
  }

  /** The operation added last for a path is that of the path's last event. */
  lemma {:induction false} NewestIsLastEvent(history: seq<Queue.Job>, events: seq<Event>, path: string)
    requires |history| == |events| && forall i | 0 <= i < |history| :: IsJobOf(history[i], events[i])
    ensures match LastEvent(events, path)
      case None => Newest(history, path).None?
      case Some(e) => Newest(history, path).Some? && IsJobOf(Newest(history, path).value, e)
  {
    if history != [] {
      NewestIsLastEvent(history[..|history| - 1], events[..|events| - 1], path);
    }
  }

  lemma {:induction false} NewestIsTheEvent(sys: System, actions: seq<Action>, events: seq<Event>, path: string)
    requires Init(sys) && Run(sys, actions).Some? && AddsEvents(actions, events)
    ensures var newest := Newest(Run(sys, actions).value.history, path);
      match LastEvent(events, path)
      case None => newest.None?
      case Some(e) => newest.Some? && IsJobOf(newest.value, e)
  {
    hide Run, LastEvent, Newest, Init;
    var history := Run(sys, actions).value.history;
    HistoryRecordsAdditions(sys, actions);
    forall i | 0 <= i < |history|
      ensures IsJobOf(history[i], events[i])
    {
      assert Added(actions)[i] == Handled(events[i]);
    }
    NewestIsLastEvent(history, events, path);
  }

  /**
   Where an operation's effect is on the server, a probe shows its metadata. An empty file's row is never
   sealed, but its checksum is what the probe shows then.
   */
  lemma UploadShows(cell: Cell, job: Queue.Job)
    requires Holds(cell, job) && job.command == Queue.UploadCommand
    ensures cell.row.Some? && Reported(cell.row.value) == Shown(job.meta)
    ensures Countable(job.meta.size) ==> Shown(job.meta).checksum == job.meta.checksum
  {
    HoldsShows(cell, job);
    EmptyChecksum();
    CountIsExactIff(job.meta.size);
    CoversFileIff(job.meta.size);
    assert |cell.file.value| == 0 ==> cell.file.value == [];
  }

  // ---------- startup and watching ----------

  /** The contents differ, but the write times coincide and no poll saw a change since. */
  predicate Unnoticed(before: map<string, Metadata>, local: map<string, Metadata>, polls: seq<Event>, path: string) {
    && path in before && path in local && LastEvent(polls, path).None?
    && before[path].lastWriteTime == local[path].lastWriteTime
    && before[path].checksum != local[path].checksum
  }

  /**
   One path of the server. It showed the files `before` when the client found the files `local` and compared
   them; now it shows the files `shown`, and `polls` are the events that polling reported since.
   */
  ghost predicate InStep(
      before: map<string, Metadata>, shown: map<string, Metadata>, local: map<string, Metadata>, polls: seq<Event>,
      path: string)
  {
    var tracked := Replay(local, polls);
    && (path in shown <==> path in tracked)
    // exactly what the server shows
    && (path in shown ==>
          shown[path] ==
            if EventFor(before, local, path).None? && LastEvent(polls, path).None? && path in before then before[path]
            else Shown(tracked[path]))
    // exactly when that is the tracked checksum
    && (path in shown && Countable(tracked[path].size) ==>
          (shown[path].checksum == tracked[path].checksum <==> !Unnoticed(before, local, polls, path)))
  }

  /**
   The life of a client: the server had any contents, the events of the startup comparison were queued, then
   those of any polls, while senders worked. On every path that is no longer queued and not unclean, the server
   is in step with the tracked files.
   */
  lemma {:induction false} PathConverges(
      sys: System, actions: seq<Action>, local: map<string, Metadata>, startup: seq<Event>, polls: seq<Event>,
      path: string)
    requires Init(sys) && Run(sys, actions).Some?
    requires Lists(startup, Probe(sys.store, sys.user), local) && AddsEvents(actions, startup + polls)
    requires PathIdle(Run(sys, actions).value.queue.ops, path) && path !in Unclean(Run(sys, actions).value)
    ensures var sys' := Run(sys, actions).value;
      var before, shown := Probe(sys.store, sys.user), Probe(sys'.store, sys.user);
      && InStep(before, shown, local, polls, path)
      && (EventFor(before, local, path).None? && LastEvent(polls, path).None? ==>
            CellOf(sys', path) == CellOf(sys, path))
  {
    hide Holds, Run, Init, Lists, AddsEvents, Replay, LastEvent, Newest, PathIdle;
    var sys' := Run(sys, actions).value;
    var before := Probe(sys.store, sys.user);
    LastEventConcat(startup, polls, path);
    LastEventIsDue(startup, before, local, path);
    ReplayAt(local, polls, path);
    NewestIsTheEvent(sys, actions, startup + polls, path);
    NewestIsNeverLost(sys, actions, path);
    IdleIsNotQueued(sys'.queue.ops, path);
    RunKeepsUser(sys, actions);
    ProbeAt(sys.store, sys.user, path);
    ProbeAt(sys'.store, sys.user, path);
    if LastEvent(startup + polls, path).Some? {
      var job := Newest(sys'.history, path).value;
      NewestIsOnPath(sys'.history, path);
      HoldsShows(CellOf(sys', path), job);
      if job.command == Queue.UploadCommand {
        UploadShows(CellOf(sys', path), job);
      }
    }
  }

  /**
   From any state of the server: whenever the queue has drained, after startup and any number of polls, the
   server is in step with the tracked files, and lists exactly those if no path is unclean.
   */
  lemma {:induction false} WatchingConverges(
      sys: System, actions: seq<Action>, local: map<string, Metadata>, startup: seq<Event>, polls: seq<Event>)
    requires Init(sys) && Run(sys, actions).Some?
    requires Lists(startup, Probe(sys.store, sys.user), local) && AddsEvents(actions, startup + polls)
    requires Run(sys, actions).value.queue.ops == []
    ensures var sys' := Run(sys, actions).value;
      var before, shown := Probe(sys.store, sys.user), Probe(sys'.store, sys.user);
      && (forall path | path !in Unclean(sys') ::
            && InStep(before, shown, local, polls, path)
            && (EventFor(before, local, path).None? && LastEvent(polls, path).None? ==>
                  CellOf(sys', path) == CellOf(sys, path)))
      && (Unclean(sys') == {} ==> shown.Keys == Replay(local, polls).Keys)
  {
    hide Run, Init, Lists, AddsEvents, Replay, LastEvent, InStep;
    var sys' := Run(sys, actions).value;
    var before, shown := Probe(sys.store, sys.user), Probe(sys'.store, sys.user);
    forall path | path !in Unclean(sys')
      ensures InStep(before, shown, local, polls, path)
      ensures path in shown <==> path in Replay(local, polls)
      ensures EventFor(before, local, path).None? && LastEvent(polls, path).None? ==>
        CellOf(sys', path) == CellOf(sys, path)
    {
      PathConverges(sys, actions, local, startup, polls, path);
      InStepListed(before, shown, local, polls, path);
    }
  }

  lemma InStepListed(
      before: map<string, Metadata>, shown: map<string, Metadata>, local: map<string, Metadata>, polls: seq<Event>,
      path: string)
    requires InStep(before, shown, local, polls, path)
    ensures path in shown <==> path in Replay(local, polls)
  {}

  /**
   Startup alone: once its events have drained and no path is unclean, the server lists exactly the local
   files, files that were in step are untouched, and a fresh comparison has nothing to report.
   */
  lemma {:induction false} StartupConverges(
      sys: System, actions: seq<Action>, local: map<string, Metadata>, events: seq<Event>)
    requires Init(sys) && Run(sys, actions).Some?
    requires Lists(events, Probe(sys.store, sys.user), local) && AddsEvents(actions, events)
    requires Run(sys, actions).value.queue.ops == [] && Unclean(Run(sys, actions).value) == {}
    ensures var sys' := Run(sys, actions).value;
      var before, shown := Probe(sys.store, sys.user), Probe(sys'.store, sys.user);
      && shown.Keys == local.Keys
      && (forall path :: InStep(before, shown, local, [], path))
      && (forall path :: EventFor(before, local, path).None? ==> CellOf(sys', path) == CellOf(sys, path))
      && (forall path | path in local ==> Countable(local[path].size) :: EventFor(shown, local, path).None?)
  {
    hide Run, Init, Lists, AddsEvents, InStep, EventFor, Probe;
    var sys' := Run(sys, actions).value;
    var before, shown := Probe(sys.store, sys.user), Probe(sys'.store, sys.user);
    assert events + [] == events && Replay(local, []) == local;
    WatchingConverges(sys, actions, local, events, []);
    forall path | path in local ==> Countable(local[path].size)
      ensures EventFor(shown, local, path).None?
    {
      InStepIsSilent(before, shown, local, path);
    }
  }

  lemma InStepIsSilent(
      before: map<string, Metadata>, shown: map<string, Metadata>, local: map<string, Metadata>, path: string)
    requires InStep(before, shown, local, [], path) && (path in local ==> Countable(local[path].size))
    ensures EventFor(shown, local, path).None?
  {}

  /** Such a change: the only byte of a file was changed without its write time. Startup does nothing about it. */
  lemma UnnoticedChange(user: string, path: string) returns (sys: System, local: map<string, Metadata>)
    ensures Init(sys) && sys.user == user
    ensures CellOf(sys, path).file == Some([0]) && local == map[path := MetadataOf([1], 7)]
    ensures Run(sys, []) == Some(sys) && AddsEvents([], []) && Lists([], Probe(sys.store, user), local)
    ensures path in Probe(sys.store, user) && Probe(sys.store, user)[path].checksum != local[path].checksum
  {
    var meta := MetadataOf([0], 7);
    var store := Put(EMPTY_STORE, Key(user, path), SealedCell(meta, [0]));
    sys := System(user, Queue.EMPTY_QUEUE, [], {}, store, [], [], {}, [], {}, false);
    local := map[path := MetadataOf([1], 7)];
    ChecksumsOfOneByte();
    forall p
      ensures p in Probe(store, user) <==> p == path
      ensures p == path ==> Probe(store, user)[p] == meta
    {
      ProbeAt(store, user, p);
    }
  }

  // ---------- fixpoint ----------

  /** Each local file is on the server as an upload leaves it, and the server lists nothing else. */
  ghost predicate AllUploaded(store: Store, user: string, local: map<string, seq<Byte>>, times: map<string, int>)
    requires times.Keys == local.Keys
  {
    forall path ::
      var cell := At(store, Key(user, path));
      if path in local then cell == SealedCell(MetadataOf(local[path], times[path]), UploadedPart(local[path]))
      else cell.row.None?
  }

  /** What the scan of these files finds. */
  function Scanned(files: map<string, seq<Byte>>, times: map<string, int>): map<string, Metadata>
    requires times.Keys == files.Keys
  {
    map path | path in files :: MetadataOf(files[path], times[path])
  }

  lemma ScannedAt(files: map<string, seq<Byte>>, times: map<string, int>, path: string)
    requires times.Keys == files.Keys
    ensures path in Scanned(files, times) <==> path in files
    ensures path in files ==> Scanned(files, times)[path] == MetadataOf(files[path], times[path])
  {}

  /**
   Then a probe and comparison have nothing to report, not even for empty files, whose rows are never sealed.
   The exception are files so large that their segment count wraps to 0.
   */
  lemma SyncIsFixpoint(
      store: Store, user: string, local: map<string, seq<Byte>>, times: map<string, int>, path: string)
    requires times.Keys == local.Keys && AllUploaded(store, user, local, times)
    ensures EventFor(Probe(store, user), Scanned(local, times), path).None? <==>
      !(path in local && CountSegments(|local[path]|) == 0 && Checksum(local[path]) != 0 && times[path] != 0)
    ensures path in local && CountSegments(|local[path]|) == 0 && Countable(|local[path]|) ==>
      Checksum(local[path]) == 0
  {
    hide Checksum, Probe, Scanned;
    ProbeAt(store, user, path);
    ScannedAt(local, times, path);
    if path in local {
      EmptyChecksum();
      CountIsExactIff(|local[path]|);
      assert |local[path]| == 0 ==> local[path] == [];
      var meta := MetadataOf(local[path], times[path]);
      assert At(store, Key(user, path)) == SealedCell(meta, UploadedPart(local[path]));
    }
  }
}
