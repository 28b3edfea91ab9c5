/** What the backup system can do: runs that put every sender to work and carry operations to their end. */
module BackupRuns {
  import opened Common
  import opened Crc32
  import opened Segments
  import opened ServerStore
  import opened UploadProtocol
  import opened QueueSpec
  import opened BackupSystem
  import opened BackupInvariant
  import opened BackupQueueSteps
  import opened BackupSteps

  // ---------- runs, step by step ----------

  lemma NothingRun(sys: System)
    ensures Run(sys, []) == Some(sys)
  {}

  lemma StepOn(sys: System, actions: seq<Action>, state: System, action: Action)
      returns (actions': seq<Action>, state': System)
    requires Run(sys, actions) == Some(state) && Enabled(state, action)
    ensures actions' == actions + [action] && state' == Next(state, action)
    ensures Run(sys, actions') == Some(state')
  {
    actions', state' := actions + [action], Next(state, action);
    assert actions'[..|actions|] == actions;
  }

  // ---------- every idle sender can work ----------

  /**
   In every run each idle sender, not just some sender, can take an operation whenever some queued operation is
   not in process and no other on its path is; it then holds the first such operation.
   */
  lemma {:induction false} IdleSenderCanTake(sys: System, actions: seq<Action>, s: nat, op: Op)
    requires Init(sys) && Run(sys, actions).Some?
    requires s < |Run(sys, actions).value.senders| && Run(sys, actions).value.senders[s].Idle?
    requires op in Run(sys, actions).value.queue.ops
    requires forall other | other in Run(sys, actions).value.queue.ops && other.job.path == op.job.path ::
      !other.processing
    ensures var before := Run(sys, actions).value;
      && Enabled(before, Take(s))
      && var after := Next(before, Take(s));
      && after.senders[s].Busy? && QueuedInProcess(after.queue.ops, after.senders[s].job)
      && (exists n :: 0 <= n < |before.queue.ops| && before.queue.ops[n].job == after.senders[s].job
            && (forall i | 0 <= i < n :: before.queue.ops[i].processing
                  || InProcess(before.queue.ops, before.queue.ops[i].job.path)))
  {
    hide Run, SendersOk, StraysOk, AllHeld, AllSettled;
    RunKeepsInvariant(sys, actions);
    ReadyIsTaken(Run(sys, actions).value, s, op);
  }

  lemma ReadyIsTaken(sys: System, s: nat, op: Op)
    requires Inv(sys.queue) && s < |sys.senders| && sys.senders[s].Idle? && op in sys.queue.ops
    requires forall other | other in sys.queue.ops && other.job.path == op.job.path :: !other.processing
    ensures Enabled(sys, Take(s))
    ensures var after := Next(sys, Take(s));
      && after.senders[s].Busy? && QueuedInProcess(after.queue.ops, after.senders[s].job)
      && (exists n :: 0 <= n < |sys.queue.ops| && sys.queue.ops[n].job == after.senders[s].job
            && (forall i | 0 <= i < n :: sys.queue.ops[i].processing
                  || InProcess(sys.queue.ops, sys.queue.ops[i].job.path)))
  {
    var n := FirstReady(sys.queue.ops, sys.queue.processingFiles);
    var i :| 0 <= i < |sys.queue.ops| && sys.queue.ops[i] == op;
    assert !InProcess(sys.queue.ops, op.job.path);
    assert Ready(sys.queue.ops[i], sys.queue.processingFiles);
    var after := Next(sys, Take(s));
    assert after.queue.ops[n].processing && after.queue.ops[n].job == after.senders[s].job;
  }

  // ---------- all senders at work ----------

  /** Operations on the paths, the first `taken` of them in process. */
  function Uploads(paths: seq<string>, taken: nat): seq<Op> {
    seq(|paths|, i requires 0 <= i < |paths| => Op(Job(i, paths[i], UploadCommand, NO_METADATA), i < taken, false))
  }

  predicate Distinct(paths: seq<string>) {
    forall i, j | 0 <= i < j < |paths| :: paths[i] != paths[j]
  }

  lemma {:induction false} CoalesceNothing(ops: seq<Op>, path: string)
    requires forall op | op in ops :: op.job.path != path
    ensures Coalesce(ops, path) == ops
  {
    if ops != [] {
      CoalesceNothing(ops[..|ops| - 1], path);
      assert ops == ops[..|ops| - 1] + [ops[|ops| - 1]];
    }
  }

  lemma {:induction false} AddAll(sys: System, paths: seq<string>, n: nat) returns (actions: seq<Action>)
    requires Init(sys) && Distinct(paths) && n <= |paths| <= 100
    ensures Run(sys, actions).Some?
    ensures var state := Run(sys, actions).value;
      state.queue == Queue(Uploads(paths[..n], 0), {}, n) && state.senders == sys.senders
  {
    hide Run;
    if n == 0 {
      actions := [];
      NothingRun(sys);
    } else {
      var before := AddAll(sys, paths, n - 1);
      var state := Run(sys, before).value;
      var path := paths[n - 1];
      forall op | op in state.queue.ops
        ensures op.job.path != path
      {}
      CoalesceNothing(state.queue.ops, path);
      actions, state := StepOn(sys, before, state, AddOp(path, NO_METADATA, UploadCommand));
      assert state.queue.ops == Uploads(paths[..n], 0);
    }
  }

  /** The first operation that is not taken yet is the first one ready. */
  lemma NextIsReady(paths: seq<string>, n: nat)
    requires Distinct(paths) && n < |paths|
    ensures FirstReady(Uploads(paths, n), set p | p in paths[..n]) == n
  {
    var ops, processingFiles := Uploads(paths, n), set p | p in paths[..n];
    assert forall i | 0 <= i < n :: ops[i].processing;
    assert Ready(ops[n], processingFiles);
  }

  lemma {:induction false} TakeAll(sys: System, paths: seq<string>, n: nat) returns (actions: seq<Action>)
    requires Init(sys) && Distinct(paths) && n <= |paths| <= 100 && n <= |sys.senders|
    ensures Run(sys, actions).Some?
    ensures var state := Run(sys, actions).value;
      && state.queue == Queue(Uploads(paths, n), set p | p in paths[..n], |paths|)
      && |state.senders| == |sys.senders|
      && (forall s | 0 <= s < |sys.senders| :: state.senders[s] ==
            if s < n then Busy(Job(s, paths[s], UploadCommand, NO_METADATA), [], 0, Local) else Idle)
  {
    hide Run;
    if n == 0 {
      actions := AddAll(sys, paths, |paths|);
      assert paths[..|paths|] == paths;
    } else {
      var before := TakeAll(sys, paths, n - 1);
      var state := Run(sys, before).value;
      NextIsReady(paths, n - 1);
      actions, state := StepOn(sys, before, state, Take(n - 1));
      assert state.queue.ops == Uploads(paths, n);
      assert paths[..n] == paths[..n - 1] + [paths[n - 1]];
    }
  }

  /** Any number of senders can be at work at once, on any paths, as far as the queue can hold them. */
  lemma AllCanBeBusy(sys: System, paths: seq<string>) returns (actions: seq<Action>)
    requires Init(sys) && Distinct(paths) && |paths| == |sys.senders| <= 100
    ensures Run(sys, actions).Some?
    ensures forall s | 0 <= s < |paths| ::
      s < |Run(sys, actions).value.senders| && Run(sys, actions).value.senders[s].Busy?
      && Run(sys, actions).value.senders[s].job.path == paths[s]
  {
    actions := TakeAll(sys, paths, |paths|);
  }

  // ---------- operations carried to their end ----------

  /** The guard is asked for and taken. */
  lemma GuardTaken(sys: System, actions: seq<Action>, state: System, s: nat, message: Message)
      returns (actions': seq<Action>, state': System)
    requires Run(sys, actions) == Some(state)
    requires s < |state.senders| && state.senders[s].Busy? && state.senders[s].stage == Sent(message)
    requires Token(state.user, state.senders[s].job.path) !in state.svc
    ensures Run(sys, actions') == Some(state')
    ensures state' == state.(
      senders := state.senders[s := state.senders[s].(stage := Guarded(message))],
      svc := state.svc + {Token(state.user, state.senders[s].job.path)})
  {
    hide Run;
    var sender := state.senders[s];
    actions', state' := StepOn(sys, actions, state, Act(s, CheckGuard));
    assert state' == state.(senders := state.senders[s := sender.(stage := Checked(message))]);
    actions', state' := StepOn(sys, actions', state', Act(s, TakeGuard));
  }

  /** Then the request is carried out, the guard released and the response on its way. */
  lemma Served(sys: System, actions: seq<Action>, state: System, s: nat, message: Message)
      returns (actions': seq<Action>, state': System)
    requires Run(sys, actions) == Some(state)
    requires s < |state.senders| && state.senders[s].Busy? && state.senders[s].stage == Sent(message)
    requires Token(state.user, state.senders[s].job.path) !in state.svc
    ensures Run(sys, actions') == Some(state')
    ensures var sender := state.senders[s];
      var (store, outcome) := Handle(state.store, RequestOf(state, sender, message));
      state' == state.(
        senders := state.senders[s := sender.(stage := Answered(message, outcome == Accepted))], store := store)
  {
    hide Run, Handle;
    actions', state' := GuardTaken(sys, actions, state, s, message);
    actions', state' := StepOn(sys, actions', state', Act(s, Execute));
    assert state'.senders[s].stage.Executed? && state'.senders[s].stage.message == message;
    actions', state' := StepOn(sys, actions', state', Act(s, ReleaseGuard));
    assert state'.svc == state.svc;
  }

  /** The state of a sender that has sent the first `i` segments of a file. */
  function Uploading(job: Job, file: seq<Byte>, i: nat): Sender
    requires i <= Requests(|file|)
  {
    if i < Requests(|file|) then Busy(job, SentBytes(file, i), i, Local)
    else Busy(job, SentBytes(file, i - 1), i - 1, Finished)
  }

  /** The request for one segment has the effect that the protocol expects. */
  lemma SegmentServed(state: System, job: Job, file: seq<Byte>, i: nat)
    requires i < Requests(|file|) && job.meta.size == |file| && job.meta.checksum == Checksum(UploadedPart(file))
    requires Received(CellOf(state, job.path), job.meta, SentBytes(file, i), i)
    ensures SegmentFits(job, SentBytes(file, i), i, SegmentOf(file, i))
    ensures var message := SegmentMessage(SegmentOf(file, i));
      var sender := Busy(job, SentBytes(file, i), i, Sent(message));
      var (store, outcome) := Handle(state.store, RequestOf(state, sender, message));
      && outcome == Accepted
      && Received(At(store, Key(state.user, job.path)), job.meta, SentBytes(file, i + 1), i + 1)
      && (forall key | key != Key(state.user, job.path) :: At(store, key) == At(state.store, key))
  {
    hide Checksum, Requests, SegmentOf, SentBytes, Received, Write;
    SegmentEnd(|file|, i);
    SentBytesGrow(file, i);
    SegmentHasLength(file, i);
    assert Flatten([SegmentOf(file, i)]) == SegmentOf(file, i) by {
      FlattenAppend([], SegmentOf(file, i));
      assert [] + [SegmentOf(file, i)] == [SegmentOf(file, i)];
    }
    NextSegmentIsAccepted(CellOf(state, job.path), job.meta, SentBytes(file, i), i, [SegmentOf(file, i)]);
  }

  lemma SegmentHasLength(file: seq<Byte>, i: nat)
    requires i < Requests(|file|)
    ensures |SegmentOf(file, i)| == SegmentLength(|file|, i)
  {
    SegmentEnd(|file|, i);
  }

  /** One segment is sent, carried out and acknowledged, whatever else is going on. */
  lemma OneSegment(sys: System, actions: seq<Action>, state: System, s: nat, job: Job, file: seq<Byte>, i: nat)
      returns (actions': seq<Action>, state': System)
    requires Run(sys, actions) == Some(state)
    requires i < Requests(|file|) && job.meta.size == |file| && job.meta.checksum == Checksum(UploadedPart(file))
    requires s < |state.senders| && state.senders[s] == Uploading(job, file, i) && job.command.UploadCommand?
    requires Token(state.user, job.path) !in state.svc
    requires Received(CellOf(state, job.path), job.meta, SentBytes(file, i), i)
    ensures Run(sys, actions') == Some(state')
    ensures state' == state.(
      senders := state.senders[s := Uploading(job, file, i + 1)],
      store := state'.store,
      dirty := if i + 1 < Requests(|file|) then state.dirty else state.dirty - {job.path})
    ensures Received(CellOf(state', job.path), job.meta, SentBytes(file, i + 1), i + 1)
    ensures forall key | key != Key(state.user, job.path) :: At(state'.store, key) == At(state.store, key)
  {
    hide Run, Checksum, Requests, SegmentOf, SentBytes, Received, Handle, SegmentFits;
    var data := SegmentOf(file, i);
    SegmentServed(state, job, file, i);
    actions', state' := StepOn(sys, actions, state, Act(s, BackupSystem.SendSegment(data)));
    var sender := Busy(job, SentBytes(file, i), i, Sent(SegmentMessage(data)));
    assert state' == state.(senders := state.senders[s := sender]);
    actions', state' := Served(sys, actions', state', s, SegmentMessage(data));
    SentBytesGrow(file, i);
    actions', state' := StepOn(sys, actions', state', Act(s, Receive));
  }

  /** All segments of a file are sent, carried out and acknowledged. */
  lemma {:induction false} AllSegments(
      sys: System, actions: seq<Action>, state: System, s: nat, job: Job, file: seq<Byte>, n: nat)
      returns (actions': seq<Action>, state': System)
    requires Run(sys, actions) == Some(state)
    requires n <= Requests(|file|) && job.meta.size == |file| && job.meta.checksum == Checksum(UploadedPart(file))
    requires s < |state.senders| && state.senders[s] == Busy(job, [], 0, Local) && job.command.UploadCommand?
    requires Token(state.user, job.path) !in state.svc
    ensures Run(sys, actions') == Some(state')
    ensures state' == state.(
      senders := state.senders[s := Uploading(job, file, n)],
      store := state'.store,
      dirty := if n < Requests(|file|) then state.dirty else state.dirty - {job.path})
    ensures Received(CellOf(state', job.path), job.meta, SentBytes(file, n), n)
    ensures forall key | key != Key(state.user, job.path) :: At(state'.store, key) == At(state.store, key)
  {
    hide Run, Checksum, Requests, SegmentOf, SentBytes;
    if n == 0 {
      actions', state' := actions, state;
    } else {
      var before;
      actions', before := AllSegments(sys, actions, state, s, job, file, n - 1);
      actions', state' := OneSegment(sys, actions', before, s, job, file, n - 1);
    }
  }

  /** An operation is added to the empty queue and taken. */
  lemma AddedAndTaken(
      sys: System, actions: seq<Action>, state: System, s: nat, path: string, meta: Metadata, command: Command)
      returns (actions': seq<Action>, state': System)
    requires Run(sys, actions) == Some(state)
    requires state.queue.ops == [] && state.queue.processingFiles == {}
    requires s < |state.senders| && state.senders[s] == Idle
    ensures Run(sys, actions') == Some(state')
    ensures var job := Job(state.queue.idCounter, path, command, meta);
      state' == state.(
        queue := Queue([Op(job, true, false)], {path}, state.queue.idCounter + 1),
        senders := state.senders[s := Busy(job, [], 0, Local)],
        history := state.history + [job],
        disturbed := state.disturbed - if StrayAtWork(state.strays, path) then {} else {path})
  {
    hide Run, StrayAtWork;
    var job := Job(state.queue.idCounter, path, command, meta);
    CoalesceNothing([], path);
    actions', state' := StepOn(sys, actions, state, AddOp(path, meta, command));
    assert state'.queue == Queue([Op(job, false, false)], {}, state.queue.idCounter + 1);
    actions', state' := OnlyOneTaken(sys, actions', state', s, job);
  }

  /** The only operation in the queue is taken. */
  lemma OnlyOneTaken(sys: System, actions: seq<Action>, state: System, s: nat, job: Job)
      returns (actions': seq<Action>, state': System)
    requires Run(sys, actions) == Some(state)
    requires state.queue.ops == [Op(job, false, false)] && state.queue.processingFiles == {}
    requires s < |state.senders| && state.senders[s] == Idle
    ensures Run(sys, actions') == Some(state')
    ensures state' == state.(
      queue := Queue([Op(job, true, false)], {job.path}, state.queue.idCounter),
      senders := state.senders[s := Busy(job, [], 0, Local)],
      disturbed := state.disturbed - if StrayAtWork(state.strays, job.path) then {} else {job.path})
  {
    hide Run, StrayAtWork, FirstReady;
    OneIsReady(Op(job, false, false));
    actions', state' := StepOn(sys, actions, state, Take(s));
    assert state'.queue.ops == [Op(job, true, false)];
  }

  lemma OneIsReady(op: Op)
    requires !op.processing
    ensures FirstReady([op], {}) == 0
  {
    assert Ready([op][0], {});
  }

  /** The only operation has finished and is removed. */
  lemma Completed(sys: System, actions: seq<Action>, state: System, s: nat, job: Job)
      returns (actions': seq<Action>, state': System)
    requires Run(sys, actions) == Some(state)
    requires s < |state.senders| && state.senders[s].Busy? && state.senders[s].job == job
    requires state.senders[s].stage.Finished?
    requires state.queue.ops == [Op(job, true, false)] && state.queue.processingFiles == {job.path}
    ensures Run(sys, actions') == Some(state')
    ensures state' == state.(
      queue := Queue([], {}, state.queue.idCounter),
      senders := state.senders[s := Idle],
      completed := state.completed + [job])
  {
    hide Run;
    var op := Op(job, true, false);
    assert [op][..0] == [];
    assert Without([op], job.id) == Without([], job.id) == [];
    assert PathsOf([op], job.id) == PathsOf([], job.id) + {job.path};
    actions', state' := StepOn(sys, actions, state, Act(s, Complete));
    assert state'.queue == Queue([], {}, state.queue.idCounter);
  }

  /**
   A file of any number of segments can be uploaded to its end, from any state of the server: the queue is
   empty again, the server has the sealed file and nothing else changed, and no path is unclean.
   */
  lemma UploadRunsToItsEnd(sys: System, s: nat, path: string, file: seq<Byte>, lastWriteTime: int)
      returns (actions: seq<Action>)
    requires Init(sys) && s < |sys.senders|
    requires Requests(|file|) > 0 && Checksum(UploadedPart(file)) == Checksum(file)
    ensures Run(sys, actions).Some?
    ensures var state := Run(sys, actions).value;
      && state.queue.ops == [] && state.senders == sys.senders && Unclean(state) == {}
      && state.history == state.completed == [Job(0, path, UploadCommand, MetadataOf(file, lastWriteTime))]
      && CellOf(state, path) == SealedCell(MetadataOf(file, lastWriteTime), UploadedPart(file))
      && forall key | key != Key(sys.user, path) :: At(state.store, key) == At(sys.store, key)
  {
    hide Run, Checksum, Requests, SentBytes, SealedCell;
    var meta := MetadataOf(file, lastWriteTime);
    var job := Job(0, path, UploadCommand, meta);
    var state;
    actions, state := [], sys;
    NothingRun(sys);
    NothingReceived(CellOf(sys, path), meta, file);
    actions, state := AddedAndTaken(sys, actions, state, s, path, meta, UploadCommand);
    actions, state := AllSegments(sys, actions, state, s, job, file, Requests(|file|));
    EverythingReceived(CellOf(state, path), meta, file);
    actions, state := Completed(sys, actions, state, s, job);
  }

  lemma NothingReceived(cell: Cell, meta: Metadata, file: seq<Byte>)
    requires Requests(|file|) > 0
    ensures Received(cell, meta, SentBytes(file, 0), 0)
  {}

  lemma EverythingReceived(cell: Cell, meta: Metadata, file: seq<Byte>)
    requires Requests(|file|) > 0 && meta.size == |file|
    requires Received(cell, meta, SentBytes(file, Requests(|file|)), Requests(|file|))
    ensures cell == SealedCell(meta, UploadedPart(file))
  {}

  /** With nothing queued, only a stray request can have the guard of a path. */
  lemma NoGuardLeft(sys: System, path: string)
    requires Inv(sys.queue) && SendersOk(sys) && sys.queue.ops == [] && !StrayAtWork(sys.strays, path)
    ensures Token(sys.user, path) !in sys.svc && sys.queue.processingFiles == {}
  {
    forall p
      ensures p !in sys.queue.processingFiles
    {
      assert !InProcess(sys.queue.ops, p);
    }
    if StrayGuards(sys, Token(sys.user, path)) {
      var k :| 0 <= k < |sys.strays| && (sys.strays[k].phase.Guarding? || sys.strays[k].phase.Performed?)
            && Token(sys.user, path) == Token(sys.user, sys.strays[k].request.key.path);
      TokenInjective(sys.user, path, sys.strays[k].request.key.path);
    }
    forall t | 0 <= t < |sys.senders|
      ensures !sys.senders[t].Busy?
    {
      assert sys.senders[t].Busy? ==> SenderOk(sys, t);
    }
  }

  /**
   A path recovers: after any run that has drained the queue, however disturbed or dirty the path, as soon as no
   stray request is at work there a file can be uploaded to its end, and the path is clean again.
   */
  lemma PathRecovers(
      sys: System, before: seq<Action>, s: nat, path: string, file: seq<Byte>, lastWriteTime: int)
      returns (actions: seq<Action>)
    requires Init(sys) && Run(sys, before).Some? && s < |Run(sys, before).value.senders|
    requires Run(sys, before).value.senders[s].Idle? && Run(sys, before).value.queue.ops == []
    requires !StrayAtWork(Run(sys, before).value.strays, path)
    requires Requests(|file|) > 0 && Checksum(UploadedPart(file)) == Checksum(file)
    ensures Run(sys, actions).Some?
    ensures var state := Run(sys, actions).value;
      && state.queue.ops == [] && path !in Unclean(state)
      && CellOf(state, path) == SealedCell(MetadataOf(file, lastWriteTime), UploadedPart(file))
  {
    hide Run, Checksum, Requests, SentBytes, SealedCell, Inv, SendersOk, StraysOk, AllHeld, AllSettled, StrayAtWork;
    var state, meta := Run(sys, before).value, MetadataOf(file, lastWriteTime);
    var job := Job(state.queue.idCounter, path, UploadCommand, meta);
    RunKeepsInvariant(sys, before);
    NoGuardLeft(state, path);
    NothingReceived(CellOf(state, path), meta, file);
    actions, state := AddedAndTaken(sys, before, state, s, path, meta, UploadCommand);
    actions, state := AllSegments(sys, actions, state, s, job, file, Requests(|file|));
    EverythingReceived(CellOf(state, path), meta, file);
    actions, state := Completed(sys, actions, state, s, job);
  }

  /** A removal cleans a path as well. */
  lemma RemovalCleans(sys: System, before: seq<Action>, s: nat, path: string) returns (actions: seq<Action>)
    requires Init(sys) && Run(sys, before).Some? && s < |Run(sys, before).value.senders|
    requires Run(sys, before).value.senders[s].Idle? && Run(sys, before).value.queue.ops == []
    requires !StrayAtWork(Run(sys, before).value.strays, path)
    ensures Run(sys, actions).Some?
    ensures var state := Run(sys, actions).value;
      state.queue.ops == [] && path !in Unclean(state) && CellOf(state, path) == EMPTY_CELL
  {
    hide Run, Inv, SendersOk, StraysOk, AllHeld, AllSettled, StrayAtWork;
    var state := Run(sys, before).value;
    var job := Job(state.queue.idCounter, path, RemoveCommand, NO_METADATA);
    RunKeepsInvariant(sys, before);
    NoGuardLeft(state, path);
    actions, state := AddedAndTaken(sys, before, state, s, path, NO_METADATA, RemoveCommand);
    actions, state := RemovalServed(sys, actions, state, s, job);
    actions, state := Completed(sys, actions, state, s, job);
  }

  lemma RemovalServed(sys: System, actions: seq<Action>, state: System, s: nat, job: Job)
      returns (actions': seq<Action>, state': System)
    requires Run(sys, actions) == Some(state)
    requires s < |state.senders| && state.senders[s] == Busy(job, [], 0, Local) && job.command.RemoveCommand?
    requires Token(state.user, job.path) !in state.svc
    ensures Run(sys, actions') == Some(state')
    ensures state' == state.(
      senders := state.senders[s := Busy(job, [], 0, Finished)],
      store := Put(state.store, Key(state.user, job.path), EMPTY_CELL),
      dirty := state.dirty - {job.path})
  {
    hide Run;
    actions', state' := StepOn(sys, actions, state, Act(s, SendRemove));
    assert state' == state.(senders := state.senders[s := Busy(job, [], 0, Sent(RemoveMessage))]);
    actions', state' := Served(sys, actions', state', s, RemoveMessage);
    actions', state' := StepOn(sys, actions', state', Act(s, Receive));
  }

  // ---------- faults ----------

  /** At every point of its work a sender can meet with a failure, and then gives its operation back or breaks off. */
  lemma FaultsArePossible(sys: System, s: nat)
    requires s < |sys.senders| && sys.senders[s].Busy? && !sys.senders[s].stage.Finished?
    ensures var sender := sys.senders[s];
      exists move :: Enabled(sys, Act(s, move))
        && (move.Fail? || move.BreakConnection? || move.LoseResponse?)
        && var after := Next(sys, Act(s, move));
        && |after.senders| == |sys.senders|
        && (after.senders[s].Idle? || after.senders[s] == sender.(stage := Broken(false)))
  {
    hide SegmentFits, AbortFlag, Requests, QueueSpec.Remove, QueueSpec.Free, Handle;
    var stage := sys.senders[s].stage;
    var move :=
      if stage.Local? || stage.Broken? then Fail else if stage.Answered? then LoseResponse else BreakConnection;
    assert Enabled(sys, Act(s, move));
  }

  /** The step that the server takes next with a request. */
  function ServerMove(stage: Stage): Move
    requires AtServer(stage)
  {
    match stage
    case Sent(_) => CheckGuard
    case Checked(_) => TakeGuard
    case Guarded(_) => Execute
    case Executed(_, _) => ReleaseGuard
  }

  /** A stray request does next what it would have done for a sender that still waits, and is then as far. */
  lemma StrayGoesOn(sys: System, s: nat)
    requires s < |sys.senders| && sys.senders[s].Busy? && AtServer(sys.senders[s].stage)
    ensures Enabled(sys, Act(s, BreakConnection)) && Enabled(sys, Act(s, ServerMove(sys.senders[s].stage)))
    ensures var broken, k := Next(sys, Act(s, BreakConnection)), |sys.strays|;
      && Enabled(broken, RunOn(k))
      && var alone, served := Next(broken, RunOn(k)), Next(sys, Act(s, ServerMove(sys.senders[s].stage)));
      && alone.store == served.store && alone.svc == served.svc
      && |alone.strays| == k + 1 && |served.senders| == |sys.senders| && served.senders[s].Busy?
      && var stage := served.senders[s].stage;
         alone.strays[k].phase == if AtServer(stage) then PhaseOf(stage) else Over
  {
    hide Answer, Handle;
    AnswerLeavesServer(Abandoned(sys, sys.senders[s]), s, sys.senders[s].stage.message, false);
  }

  lemma AnswerLeavesServer(sys: System, s: nat, message: Message, ok: bool)
    requires s < |sys.senders| && sys.senders[s].Busy?
    ensures var sys' := Answer(sys, s, message, ok);
      (sys'.user, sys'.store, sys'.svc, sys'.strays) == (sys.user, sys.store, sys.svc, sys.strays)
  {
    hide Requests, QueueSpec.Free;
  }

  /** An operation given back after a failure can be taken again at once. */
  lemma {:induction false} FailedIsRetried(sys: System, actions: seq<Action>, s: nat)
    requires Init(sys) && Run(sys, actions).Some? && s < |Run(sys, actions).value.senders|
    requires Run(sys, actions).value.senders[s].Busy? && Enabled(Run(sys, actions).value, Act(s, Fail))
    ensures var after := Next(Run(sys, actions).value, Act(s, Fail));
      && Queued(after.queue.ops, Run(sys, actions).value.senders[s].job)
      && Enabled(after, Take(s))
  {
    hide Run, SendersOk, StraysOk, AllHeld, AllSettled, Inv;
    RunKeepsInvariant(sys, actions);
    GivenBackIsReady(Run(sys, actions).value, sys.store, s);
  }

  lemma GivenBackIsReady(sys: System, store0: Store, s: nat)
    requires Invariant(sys, store0) && s < |sys.senders| && sys.senders[s].Busy? && Enabled(sys, Act(s, Fail))
    ensures var after := Next(sys, Act(s, Fail));
      Queued(after.queue.ops, sys.senders[s].job) && Enabled(after, Take(s))
  {
    hide SendersOk, StraysOk, AllHeld, AllSettled, Inv;
    var job, after := sys.senders[s].job, Next(sys, Act(s, Fail));
    var n := IndexOf(sys.queue.ops, job.id);
    SenderIsOk(sys, s);
    HeldByIndex(sys.queue, job);
    InvOrdersIds(sys.queue);
    FreeKeepsInv(sys.queue, job.id);
    SetProcessingMembers(sys.queue.ops, n, false);
    forall other | other in after.queue.ops && other.job.path == job.path
      ensures !other.processing
    {
      if other in sys.queue.ops && other.processing {
        OneInProcess(sys.queue, other, sys.queue.ops[n]);
      }
    }
    ReadyIsTaken(after, s, sys.queue.ops[n].(processing := false));
  }

  /** A request can be lost before the server has read it, and then it has no effect there. */
  lemma RequestsCanBeLost(sys: System, s: nat)
    requires s < |sys.senders| && sys.senders[s].Busy? && sys.senders[s].stage.Sent?
    ensures Enabled(sys, Act(s, LoseRequest))
    ensures var after := Next(sys, Act(s, LoseRequest));
      after.store == sys.store && after.svc == sys.svc && after.strays == sys.strays
      && after.disturbed == sys.disturbed
  {
    hide QueueSpec.Free;
  }

  /** An upload can be skipped before its first segment, and broken off before each one. */
  lemma UploadsCanEndEarly(sys: System, s: nat)
    requires s < |sys.senders| && sys.senders[s].Busy? && sys.senders[s].stage.Local?
    requires sys.senders[s].job.command.UploadCommand?
    ensures Enabled(sys, Act(s, Skip)) <==> sys.senders[s].next == 0
    ensures Enabled(sys, Act(s, Break))
    ensures Next(sys, Act(s, Break)).senders[s] == sys.senders[s].(stage := Broken(false))
  {}

  /** The abort flag is noticed exactly if it is set and there are bytes left to read. */
  lemma AbortIsNoticedIff(sys: System, s: nat)
    requires IdsIncrease(sys.queue.ops) && s < |sys.senders| && sys.senders[s].Busy?
    ensures Enabled(sys, Act(s, NoticeAbort)) <==>
      && sys.senders[s].stage.Local? && sys.senders[s].job.command.UploadCommand?
      && sys.senders[s].next < Requests(sys.senders[s].job.meta.size) && sys.senders[s].job.meta.size > 0
      && exists op :: op in sys.queue.ops && op.job.id == sys.senders[s].job.id && op.abort
  {
    hide SegmentLength, Requests;
    var sender := sys.senders[s];
    var size, n := sender.job.meta.size, IndexOf(sys.queue.ops, sender.job.id);
    if sender.next < Requests(size) {
      SegmentEnd(size, sender.next);
      EmptySegments(size, sender.next);
    }
    forall op | op in sys.queue.ops && op.job.id == sender.job.id
      ensures n < |sys.queue.ops| && sys.queue.ops[n] == op
    {
      var i :| 0 <= i < |sys.queue.ops| && sys.queue.ops[i] == op;
      SameIdSameOp(sys.queue.ops, op, sys.queue.ops[n]);
    }
  }

  lemma EmptySegments(size: nat, i: nat)
    requires i < Requests(size)
    ensures SegmentLength(size, i) > 0 <==> size > 0
  {
    SegmentEnd(size, i);
  }

  /** So can a removal; afterwards disk and table know nothing of the path. */
  lemma RemovalRunsToItsEnd(sys: System, s: nat, path: string) returns (actions: seq<Action>)
    requires Init(sys) && s < |sys.senders|
    ensures Run(sys, actions).Some?
    ensures var state := Run(sys, actions).value;
      && state.queue.ops == [] && state.senders == sys.senders && Unclean(state) == {}
      && state.history == state.completed == [Job(0, path, RemoveCommand, NO_METADATA)]
      && CellOf(state, path).file == None && CellOf(state, path).row == None
      && forall key | key != Key(sys.user, path) :: At(state.store, key) == At(sys.store, key)
  {
    hide Run;
    var job := Job(0, path, RemoveCommand, NO_METADATA);
    var state;
    actions, state := [], sys;
    NothingRun(sys);
    actions, state := AddedAndTaken(sys, actions, state, s, path, NO_METADATA, RemoveCommand);
    actions, state := RemovalServed(sys, actions, state, s, job);
    actions, state := Completed(sys, actions, state, s, job);
  }

  // ---------- an upload that is superseded ----------

  /** A newer operation is added on the path in process: the old one is flagged and stays. */
  lemma AddedBehind(sys: System, actions: seq<Action>, state: System, job: Job, path: string, meta: Metadata)
      returns (actions': seq<Action>, state': System)
    requires Run(sys, actions) == Some(state)
    requires state.queue.ops == [Op(job, true, false)] && job.path == path
    ensures Run(sys, actions') == Some(state')
    ensures var newer := Job(state.queue.idCounter, path, UploadCommand, meta);
      state' == state.(
        queue := state.queue.(ops := [Op(job, true, true), Op(newer, false, false)],
                              idCounter := state.queue.idCounter + 1),
        history := state.history + [newer])
  {
    hide Run;
    var op := Op(job, true, false);
    assert [op][..0] == [];
    assert Coalesce([op], path) == Coalesce([], path) + [op.(abort := true)];
    actions', state' := StepOn(sys, actions, state, AddOp(path, meta, UploadCommand));
  }

  /** The sender sees the flag and sends an ABORT, which is carried out. */
  lemma Aborted(sys: System, actions: seq<Action>, state: System, s: nat, job: Job, newer: Op)
      returns (actions': seq<Action>, state': System)
    requires Run(sys, actions) == Some(state)
    requires state.queue.ops == [Op(job, true, true), newer] && newer.job.id != job.id
    requires s < |state.senders| && state.senders[s] == Busy(job, [], 0, Local) && job.command.UploadCommand?
    requires 0 < Requests(job.meta.size) && 0 < job.meta.size && Token(state.user, job.path) !in state.svc
    ensures Run(sys, actions') == Some(state')
    ensures state' == state.(
      senders := state.senders[s := Busy(job, [], 0, Finished)],
      store := Put(state.store, Key(state.user, job.path), EMPTY_CELL))
  {
    hide Run, Requests, SegmentLength;
    SegmentEnd(job.meta.size, 0);
    FlagIsSet(job, newer);
    actions', state' := StepOn(sys, actions, state, Act(s, NoticeAbort));
    assert state'.senders[s].stage == Broken(true);
    actions', state' := StepOn(sys, actions', state', Act(s, SendAbort));
    assert state' == state.(senders := state.senders[s := Busy(job, [], 0, Sent(AbortMessage(true)))]);
    actions', state' := Served(sys, actions', state', s, AbortMessage(true));
    actions', state' := StepOn(sys, actions', state', Act(s, Receive));
  }

  lemma FlagIsSet(job: Job, newer: Op)
    requires newer.job.id != job.id
    ensures AbortFlag(Queue([Op(job, true, true), newer], {}, 0), job.id)
    ensures IndexOf([Op(job, true, true), newer], job.id) == 0
  {
    var ops := [Op(job, true, true), newer];
    var n := IndexOf(ops, job.id);
    assert ops[0].job.id == job.id;
  }

  /** It is removed and the newer one taken, by any sender that is then idle. */
  lemma RemovedAndTaken(sys: System, actions: seq<Action>, state: System, s: nat, job: Job, newer: Job)
      returns (actions': seq<Action>, state': System)
    requires Run(sys, actions) == Some(state)
    requires state.queue.ops == [Op(job, true, true), Op(newer, false, false)]
    requires state.queue.processingFiles == {job.path} && newer.path == job.path && newer.id != job.id
    requires s < |state.senders| && state.senders[s] == Busy(job, [], 0, Finished)
    requires state.strays == [] && state.disturbed == {}
    ensures Run(sys, actions') == Some(state')
    ensures state' == state.(
      queue := state.queue.(ops := [Op(newer, true, false)]),
      senders := state.senders[s := Busy(newer, [], 0, Local)],
      completed := state.completed + [job])
  {
    hide Run;
    var a, b := Op(job, true, true), Op(newer, false, false);
    assert [a, b][..1] == [a] && [a][..0] == [];
    assert Without([a], job.id) == Without([], job.id) == [];
    assert PathsOf([a], job.id) == PathsOf([], job.id) + {job.path};
    assert Without([a, b], job.id) == [] + [b] && PathsOf([a, b], job.id) == {job.path};
    hide Without, PathsOf;
    actions', state' := StepOn(sys, actions, state, Act(s, Complete));
    assert state'.queue == Queue([b], {}, state.queue.idCounter);
    actions', state' := OnlyOneTaken(sys, actions', state', s, newer);
  }

  /**
   An upload in process that is superseded by a newer version of the file can be aborted in favour of it, and
   the newer version uploaded: the server ends with that, and no path is unclean.
   */
  lemma NewerVersionReplacesOlder(
      sys: System, s: nat, path: string, older: Metadata, file: seq<Byte>, lastWriteTime: int)
      returns (actions: seq<Action>)
    requires Init(sys) && s < |sys.senders|
    requires 0 < older.size && 0 < Requests(older.size)
    requires Requests(|file|) > 0 && Checksum(UploadedPart(file)) == Checksum(file)
    ensures Run(sys, actions).Some?
    ensures var state := Run(sys, actions).value;
      && state.queue.ops == [] && state.senders == sys.senders && Unclean(state) == {}
      && state.completed == [Job(0, path, UploadCommand, older),
                             Job(1, path, UploadCommand, MetadataOf(file, lastWriteTime))]
      && CellOf(state, path) == SealedCell(MetadataOf(file, lastWriteTime), UploadedPart(file))
  {
    hide Run, Checksum, Requests, SentBytes, SealedCell, Received;
    var meta := MetadataOf(file, lastWriteTime);
    var job, newer := Job(0, path, UploadCommand, older), Job(1, path, UploadCommand, meta);
    var state;
    actions, state := [], sys;
    NothingRun(sys);
    actions, state := AddedAndTaken(sys, actions, state, s, path, older, UploadCommand);
    actions, state := AddedBehind(sys, actions, state, job, path, meta);
    actions, state := Aborted(sys, actions, state, s, job, Op(newer, false, false));
    actions, state := RemovedAndTaken(sys, actions, state, s, job, newer);
    NothingReceived(CellOf(state, path), meta, file);
    actions, state := AllSegments(sys, actions, state, s, newer, file, Requests(|file|));
    EverythingReceived(CellOf(state, path), meta, file);
    actions, state := Completed(sys, actions, state, s, newer);
  }

  // ---------- runs without faults ----------

  /** What makes a path unclean: an upload skipped, sending nothing or broken off, or a connection that breaks. */
  predicate IsFault(action: Action) {
    action.Act?
    && (action.move.Skip? || action.move.SendNothing? || action.move.Break? || action.move.LoseRequest?
        || action.move.BreakConnection? || action.move.LoseResponse?)
  }

  /** No request has failed, and every ABORT is about a superseded upload. */
  ghost predicate Faultless(sys: System) {
    && sys.dirty == {} && sys.disturbed == {} && sys.strays == []
    && (forall s | 0 <= s < |sys.senders| && sys.senders[s].Busy? :: StageIsFaultless(sys.senders[s].stage))
  }

  predicate StageIsFaultless(stage: Stage) {
    match stage
    case Local => true
    case Broken(superseded) => superseded
    case Finished => true
    case Sent(message) => message != AbortMessage(false)
    case Checked(message) => message != AbortMessage(false)
    case Guarded(message) => message != AbortMessage(false)
    case Executed(message, ok) => message != AbortMessage(false)
    case Answered(message, ok) => message != AbortMessage(false)
  }

  /** Without such faults no path ever becomes unclean: the claims of all theorems then hold of every path. */
  lemma {:induction false} FaultlessRunsAreClean(sys: System, actions: seq<Action>)
    requires Init(sys) && Run(sys, actions).Some?
    requires forall action | action in actions :: !IsFault(action)
    ensures Unclean(Run(sys, actions).value) == {}
    ensures Faultless(Run(sys, actions).value)
  {
    hide Enabled, Next, Invariant, Faultless, IsFault;
    if actions == [] {
      InitFaultless(sys);
    } else {
      var init, last := actions[..|actions| - 1], actions[|actions| - 1];
      assert actions == init + [last];
      FaultlessRunsAreClean(sys, init);
      RunKeepsInvariant(sys, init);
      NextKeepsFaultless(Run(sys, init).value, sys.store, last);
    }
    FaultlessIsClean(Run(sys, actions).value);
  }

  lemma InitFaultless(sys: System)
    requires Init(sys)
    ensures Faultless(sys)
  {}

  lemma FaultlessIsClean(sys: System)
    requires Faultless(sys)
    ensures Unclean(sys) == {}
  {}

  lemma NextKeepsFaultless(sys: System, store0: Store, action: Action)
    requires Invariant(sys, store0) && Faultless(sys) && Enabled(sys, action) && !IsFault(action)
    ensures Faultless(Next(sys, action))
  {
    hide Inv, StageOk, StraysOk, AllHeld, AllSettled, CanMove, Moved, QueueSpec.Add, QueueSpec.Get, FirstReady;
    if action.Act? {
      if sys.senders[action.s].stage.Answered? {
        assert SenderOk(sys, action.s) && UndisturbedOk(sys, action.s);
        AnswersAreOk(CellOf(sys, sys.senders[action.s].job.path), sys.senders[action.s],
                     IsLatest(sys.history, sys.senders[action.s].job), sys.senders[action.s].job.path in sys.dirty);
      }
      MoveKeepsFaultless(sys, action.s, action.move);
    }
  }

  lemma AnswersAreOk(cell: Cell, sender: Sender, latest: bool, dirty: bool)
    requires sender.Busy? && sender.stage.Answered? && StageOk(cell, sender, latest, dirty)
    ensures sender.stage.ok
  {}

  lemma MoveKeepsFaultless(sys: System, s: nat, move: Move)
    requires Faultless(sys) && !IsFault(Act(s, move))
    requires s < |sys.senders| && sys.senders[s].Busy? && CanMove(sys.queue, sys.senders[s], move)
    requires sys.senders[s].stage.Answered? ==> sys.senders[s].stage.ok
    ensures Faultless(Moved(sys, s, move))
  {
    hide SegmentFits, AbortFlag, SegmentLength, Requests, QueueSpec.Remove, QueueSpec.Free, Handle;
  }
}
