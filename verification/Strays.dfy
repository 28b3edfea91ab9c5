/** Requests that the server carries out although their connection broke, and what they can spoil. */
module Strays {
  import opened Common
  import opened Crc32
  import opened Segments
  import opened ServerStore
  import opened ServerHistory
  import opened UploadProtocol
  import opened QueueSpec
  import opened BackupSystem
  import opened BackupInvariant
  import opened BackupRuns
  import opened BackupExclusion

  // ---------- when there are none ----------

  /** Without a connection that breaks in the middle of a request no path is ever disturbed. */
  lemma {:induction false} UnbrokenMeansUndisturbed(sys: System, actions: seq<Action>)
    requires Init(sys) && BackupSystem.Run(sys, actions).Some?
    requires forall s :: Act(s, BreakConnection) !in actions
    ensures BackupSystem.Run(sys, actions).value.strays == [] && BackupSystem.Run(sys, actions).value.disturbed == {}
  {
    if actions != [] {
      hide Enabled, Next;
      var init, last := actions[..|actions| - 1], actions[|actions| - 1];
      assert actions == init + [last];
      UnbrokenMeansUndisturbed(sys, init);
      StaysUndisturbed(BackupSystem.Run(sys, init).value, last);
    }
  }

  lemma StaysUndisturbed(sys: System, action: Action)
    requires sys.strays == [] && sys.disturbed == {} && Enabled(sys, action)
    requires !(action.Act? && action.move.BreakConnection?)
    ensures Next(sys, action).strays == [] && Next(sys, action).disturbed == {}
  {
    hide CanMove, Moved, QueueSpec.Get, QueueSpec.Add, FirstReady;
    if action.Act? {
      MoveStaysUndisturbed(sys, action.s, action.move);
    }
  }

  lemma MoveStaysUndisturbed(sys: System, s: nat, move: Move)
    requires sys.strays == [] && sys.disturbed == {} && !move.BreakConnection?
    requires s < |sys.senders| && sys.senders[s].Busy? && CanMove(sys.queue, sys.senders[s], move)
    ensures Moved(sys, s, move).strays == [] && Moved(sys, s, move).disturbed == {}
  {
    hide SegmentFits, AbortFlag, GiveBack, Answer, QueueSpec.Remove, Handle;
    GiveBackStaysUndisturbed(sys, s);
    var stage := sys.senders[s].stage;
    if stage.Answered? {
      AnswerStaysUndisturbed(sys, s, stage.message, stage.ok);
      AnswerStaysUndisturbed(sys, s, stage.message, false);
    } else if stage.Sent? {
      AnswerStaysUndisturbed(sys, s, stage.message, false);
    }
  }

  lemma GiveBackStaysUndisturbed(sys: System, s: nat)
    requires s < |sys.senders| && sys.senders[s].Busy?
    ensures GiveBack(sys, s).strays == sys.strays && GiveBack(sys, s).disturbed == sys.disturbed
  {
    hide QueueSpec.Free;
  }

  lemma AnswerStaysUndisturbed(sys: System, s: nat, message: Message, ok: bool)
    requires s < |sys.senders| && sys.senders[s].Busy?
    ensures Answer(sys, s, message, ok).strays == sys.strays
    ensures Answer(sys, s, message, ok).disturbed == sys.disturbed
  {
    hide QueueSpec.Free, Requests;
  }

  // ---------- exactly what they spoil ----------

  /** A segment 0 that is the whole of a file of one segment, and the same file. */
  predicate RewritesTheSame(segment: Segment, meta: Metadata) {
    var data := Flatten(segment.data);
    && segment.id == 0
    && Requests(meta.size) == 1
    && |data| == Covered(meta.size) && Checksum(data) == meta.checksum
    && if CountSegments(meta.size) == 0 then CountSegments(segment.meta.size) != 1 else segment.meta == meta
  }

  /** A request after which the effect of an operation is still there. */
  predicate LeavesEffect(cell: Cell, job: Job, request: Request) {
    match (request, job.command)
    case (Discard(_), RemoveCommand) => true
    case (Discard(_), UploadCommand) => false
    case (Upload(_, segment), RemoveCommand) =>
      && !BeginsInTheMiddle(cell, segment)
      && (segment.id == 0 ==>
            CountSegments(segment.meta.size) == 1 && Checksum(Flatten(segment.data)) != segment.meta.checksum)
    case (Upload(_, segment), UploadCommand) =>
      || (segment.id != 0 && segment.id != Requests(job.meta.size))
      || RewritesTheSame(segment, job.meta)
  }

  /** Exactly these requests leave the effect of an operation alone when they are carried out after it. */
  lemma EffectStaysIff(cell: Cell, job: Job, request: Request)
    requires Holds(cell, job) && (job.command.UploadCommand? ==> Requests(job.meta.size) > 0)
    ensures Holds(Respond(cell, request).0, job) <==> LeavesEffect(cell, job, request)
  {
    hide Checksum, Flatten;
    assert request.Upload? ==> [] + Flatten(request.segment.data) == Flatten(request.segment.data);
  }

  /** Of the segments of an upload itself only the first of several does harm afterwards. */
  lemma OwnSegmentHarmsIff(cell: Cell, job: Job, key: Key, sent: seq<Byte>, next: nat, data: seq<Byte>)
    requires Holds(cell, job) && job.command.UploadCommand?
    requires SegmentFits(job, sent, next, data) && |sent| == next * MAX_SEGMENT
    ensures Holds(Respond(cell, Request.Upload(key, UploadSegment(job.meta, next, [data]))).0, job) <==>
      !(next == 0 && Requests(job.meta.size) > 1)
  {
    hide Checksum;
    var segment := UploadSegment(job.meta, next, [data]);
    assert Flatten(segment.data) == data by {
      FlattenAppend([], data);
      assert [] + [data] == [data];
    }
    assert next == 0 ==> sent + data == data;
    EffectStaysIff(cell, job, Request.Upload(key, segment));
  }

  /** The same when a stray request is carried out in the system. */
  lemma StraySpoilsIff(sys: System, k: nat, job: Job)
    requires k < |sys.strays| && sys.strays[k].phase.Guarding? && sys.strays[k].request.key == Key(sys.user, job.path)
    requires Holds(CellOf(sys, job.path), job) && (job.command.UploadCommand? ==> Requests(job.meta.size) > 0)
    ensures Holds(CellOf(RanOn(sys, k), job.path), job) <==>
      LeavesEffect(CellOf(sys, job.path), job, sys.strays[k].request)
  {
    hide Holds, LeavesEffect, Respond;
    EffectStaysIff(CellOf(sys, job.path), job, sys.strays[k].request);
  }

  // ---------- a run in which an old segment wins ----------

  /** The system with one sender before anything was added. */
  function Fresh(user: string): System {
    System(user, EMPTY_QUEUE, [Idle], {}, EMPTY_STORE, [], [], {}, [], {}, false)
  }

  /** The segment of a one-byte file is on its way to the server. */
  lemma OneByteSent(sys: System, actions: seq<Action>, state: System, job: Job, data: Byte)
      returns (actions': seq<Action>, state': System)
    requires BackupSystem.Run(sys, actions) == Some(state)
    requires state.senders == [Busy(job, [], 0, Local)]
    requires job.command.UploadCommand? && job.meta.size == 1 && job.meta.checksum == Checksum([data])
    ensures BackupSystem.Run(sys, actions') == Some(state')
    ensures state' == state.(senders := [Busy(job, [], 0, Sent(SegmentMessage([data])))])
  {
    hide BackupSystem.Run, Checksum;
    assert [] + [data] == [data];
    actions', state' := StepOn(sys, actions, state, Act(0, BackupSystem.SendSegment([data])));
  }

  /** The connection breaks before the guard is asked for; the upload gives up and sends an ABORT. */
  lemma BrokenOff(sys: System, actions: seq<Action>, state: System, job: Job, data: Byte)
      returns (actions': seq<Action>, state': System)
    requires BackupSystem.Run(sys, actions) == Some(state)
    requires state.senders == [Busy(job, [], 0, Sent(SegmentMessage([data])))] && job.command.UploadCommand?
    ensures BackupSystem.Run(sys, actions') == Some(state')
    ensures state' == state.(
      senders := [Busy(job, [], 0, Sent(AbortMessage(false)))],
      strays := state.strays + [Stray(Request.Upload(Key(state.user, job.path), UploadSegment(job.meta, 0, [[data]])),
                                      Arrived)],
      disturbed := state.disturbed + {job.path})
  {
    hide BackupSystem.Run;
    actions', state' := StepOn(sys, actions, state, Act(0, BreakConnection));
    assert state'.senders == [Busy(job, [], 0, Broken(false))];
    actions', state' := StepOn(sys, actions', state', Act(0, SendAbort));
  }

  /** The upload of a one-byte file breaks off, and an ABORT ends it, while its segment is still under way. */
  lemma FirstUploadBreaks(user: string, path: string) returns (actions: seq<Action>, state: System)
    ensures BackupSystem.Run(Fresh(user), actions) == Some(state)
    ensures var meta := MetadataOf([0], 7);
      && state.queue == Queue([], {}, 1) && state.senders == [Idle] && state.svc == {} && state.user == user
      && |state.history| == 1 && state.dirty == {path} && state.disturbed == {path}
      && state.strays == [Stray(Request.Upload(Key(user, path), UploadSegment(meta, 0, [[0]])), Arrived)]
  {
    hide BackupSystem.Run, Checksum, UploadSegment, Enabled, Next, Handle;
    var sys, meta := Fresh(user), MetadataOf([0], 7);
    var job := Job(0, path, UploadCommand, meta);
    actions, state := [], sys;
    NothingRun(sys);
    actions, state := AddedAndTaken(sys, actions, state, 0, path, meta, UploadCommand);
    actions, state := OneByteSent(sys, actions, state, job, 0);
    actions, state := BrokenOff(sys, actions, state, job, 0);
    AbortAccepted(state, state.senders[0]);
    actions, state := Served(sys, actions, state, 0, AbortMessage(false));
    actions, state := Acknowledged(sys, actions, state, job, AbortMessage(false));
    actions, state := Completed(sys, actions, state, 0, job);
  }

  lemma AbortAccepted(state: System, sender: Sender)
    requires sender.Busy?
    ensures Handle(state.store, RequestOf(state, sender, AbortMessage(false))).1 == Accepted
  {}

  lemma Acknowledged(sys: System, actions: seq<Action>, state: System, job: Job, message: Message)
      returns (actions': seq<Action>, state': System)
    requires BackupSystem.Run(sys, actions) == Some(state)
    requires state.senders == [Busy(job, [], 0, Answered(message, true))]
    requires message == AbortMessage(false) || (message.SegmentMessage? && Requests(job.meta.size) == 1)
    ensures BackupSystem.Run(sys, actions') == Some(state')
    ensures state' == state.(
      senders := [Busy(job, [], 0, Finished)],
      dirty := if message.AbortMessage? then state.dirty + {job.path} else state.dirty - {job.path})
  {
    hide BackupSystem.Run;
    actions', state' := StepOn(sys, actions, state, Act(0, Receive));
  }

  /** The next version of the file is uploaded without trouble. */
  lemma SecondUploadSucceeds(user: string, path: string) returns (actions: seq<Action>, state: System)
    ensures BackupSystem.Run(Fresh(user), actions) == Some(state)
    ensures var meta := MetadataOf([0], 7);
      && state.queue == Queue([], {}, 2) && state.svc == {} && state.user == user
      && |state.history| == 2 && state.history[1] == Job(1, path, UploadCommand, MetadataOf([1], 8))
      && state.dirty == {}
      && state.strays == [Stray(Request.Upload(Key(user, path), UploadSegment(meta, 0, [[0]])), Arrived)]
  {
    hide BackupSystem.Run, Checksum, UploadSegment, Enabled, Next, Handle;
    var sys, meta := Fresh(user), MetadataOf([1], 8);
    var job := Job(1, path, UploadCommand, meta);
    actions, state := FirstUploadBreaks(user, path);
    actions, state := AddedAndTaken(sys, actions, state, 0, path, meta, UploadCommand);
    actions, state := OneByteSent(sys, actions, state, job, 1);
    OneByteAccepted(state, job, 1);
    actions, state := Served(sys, actions, state, 0, SegmentMessage([1]));
    actions, state := Acknowledged(sys, actions, state, job, SegmentMessage([1]));
    actions, state := Completed(sys, actions, state, 0, job);
  }

  lemma OneByteAccepted(state: System, job: Job, data: Byte)
    requires job.meta.size == 1 && job.meta.checksum == Checksum([data])
    ensures var sender := Busy(job, [], 0, Sent(SegmentMessage([data])));
      Handle(state.store, RequestOf(state, sender, SegmentMessage([data]))).1 == Accepted
    ensures forall cell ::
      Write(cell, UploadSegment(job.meta, 0, [[data]])) == (SealedCell(job.meta, [data]), Accepted)
  {
    hide Checksum;
    var segment := UploadSegment(job.meta, 0, [[data]]);
    assert [] + Flatten(segment.data) == [data];
  }

  /**
   Such a run: an operation was added and completed last, nothing is queued, skipped or failed, and yet the
   server ends up with the old version of the file, whose segment was under way all the time.
   */
  lemma OldSegmentWins(user: string, path: string) returns (sys: System, actions: seq<Action>)
    ensures Init(sys) && sys.user == user && BackupSystem.Run(sys, actions).Some?
    ensures var sys' := BackupSystem.Run(sys, actions).value;
      && sys'.queue.ops == [] && sys'.dirty == {}
      && |sys'.history| == 2 && sys'.history[1] == Job(1, path, UploadCommand, MetadataOf([1], 8))
      && CellOf(sys', path) == SealedCell(MetadataOf([0], 7), [0])
  {
    hide BackupSystem.Run, Checksum, UploadSegment, SealedCell, Write;
    var state;
    sys := Fresh(user);
    actions, state := SecondUploadSucceeds(user, path);
    actions, state := StepOn(sys, actions, state, RunOn(0));
    assert state.strays[0].phase == Admitted;
    actions, state := StepOn(sys, actions, state, RunOn(0));
    assert state.strays[0].phase == Guarding;
    OneByteAccepted(state, Job(0, path, UploadCommand, MetadataOf([0], 7)), 0);
    actions, state := StepOn(sys, actions, state, RunOn(0));
  }

  // ---------- guards under stray requests ----------

  /** An upload whose connection broke under the guard: the ABORT that follows is refused. */
  lemma AbortIsRefused(user: string, path: string) returns (actions: seq<Action>)
    ensures BackupSystem.Run(Fresh(user), actions).Some?
    ensures var state := BackupSystem.Run(Fresh(user), actions).value;
      && HasGuard(state, AtStray(0), path)
      && |state.senders| == 1 && state.senders[0].Busy? && state.senders[0].job.path == path
      && state.senders[0].stage == Answered(AbortMessage(false), false)
  {
    hide BackupSystem.Run, Checksum, UploadSegment;
    var sys, meta := Fresh(user), MetadataOf([0], 7);
    var job := Job(0, path, UploadCommand, meta);
    var state;
    actions, state := [], sys;
    NothingRun(sys);
    actions, state := AddedAndTaken(sys, actions, state, 0, path, meta, UploadCommand);
    actions, state := OneByteSent(sys, actions, state, job, 0);
    actions, state := GuardTaken(sys, actions, state, 0, SegmentMessage([0]));
    hide Next, Enabled;
    actions, state := BrokenUnderGuard(sys, actions, state, job);
  }

  /** The connection breaks under the guard, and the ABORT asks for it. */
  lemma BrokenUnderGuard(sys: System, actions: seq<Action>, state: System, job: Job)
      returns (actions': seq<Action>, state': System)
    requires BackupSystem.Run(sys, actions) == Some(state)
    requires state.senders == [Busy(job, [], 0, Guarded(SegmentMessage([0])))] && state.strays == []
    requires job.command.UploadCommand? && Token(state.user, job.path) in state.svc
    ensures BackupSystem.Run(sys, actions') == Some(state')
    ensures HasGuard(state', AtStray(0), job.path)
    ensures state'.senders == [Busy(job, [], 0, Answered(AbortMessage(false), false))]
  {
    hide BackupSystem.Run, UploadSegment;
    actions', state' := StepOn(sys, actions, state, Act(0, BreakConnection));
    assert state'.senders == [Busy(job, [], 0, Broken(false))] && state'.strays[0].phase == Guarding;
    actions', state' := StepOn(sys, actions', state', Act(0, SendAbort));
    assert state'.senders == [Busy(job, [], 0, Sent(AbortMessage(false)))];
    actions', state' := StepOn(sys, actions', state', Act(0, CheckGuard));
  }

  /** The connection breaks when the guard has been asked for, first under the segment, then under the ABORT. */
  lemma TwoHaveAskedRun(user: string, path: string) returns (actions: seq<Action>, state: System)
    ensures BackupSystem.Run(Fresh(user), actions) == Some(state)
    ensures state.user == user && state.svc == {} && state.senders == [Idle]
    ensures var meta := MetadataOf([0], 7);
      && state.queue == Queue([Op(Job(0, path, UploadCommand, meta), false, false)], {}, 1)
      && |state.strays| == 2
      && state.strays[0] == Stray(Request.Upload(Key(user, path), UploadSegment(meta, 0, [[0]])), Admitted)
      && state.strays[1] == Stray(Discard(Key(user, path)), Admitted)
  {
    hide BackupSystem.Run, Checksum, UploadSegment;
    var sys, meta := Fresh(user), MetadataOf([0], 7);
    var job := Job(0, path, UploadCommand, meta);
    actions, state := [], sys;
    NothingRun(sys);
    actions, state := AddedAndTaken(sys, actions, state, 0, path, meta, UploadCommand);
    actions, state := OneByteSent(sys, actions, state, job, 0);
    actions, state := AskedAndBroken(sys, actions, state, job, SegmentMessage([0]));
    actions, state := StepOn(sys, actions, state, Act(0, SendAbort));
    assert state.senders == [Busy(job, [], 0, Sent(AbortMessage(false)))];
    actions, state := AskedAndBroken(sys, actions, state, job, AbortMessage(false));
  }

  lemma AskedAndBroken(sys: System, actions: seq<Action>, state: System, job: Job, message: Message)
      returns (actions': seq<Action>, state': System)
    requires BackupSystem.Run(sys, actions) == Some(state)
    requires state.senders == [Busy(job, [], 0, Sent(message))] && Token(state.user, job.path) !in state.svc
    requires state.queue.ops == [Op(job, true, false)] && state.queue.processingFiles == {job.path}
    requires !message.RemoveMessage?
    ensures BackupSystem.Run(sys, actions') == Some(state')
    ensures state' == state.(
      queue := if message.SegmentMessage? then state.queue
               else Queue([Op(job, false, false)], {}, state.queue.idCounter),
      senders := [if message.SegmentMessage? then Busy(job, [], 0, Broken(false)) else Idle],
      strays := state.strays + [Stray(RequestOf(state, state.senders[0], message), Admitted)],
      disturbed := state.disturbed + {job.path})
  {
    hide BackupSystem.Run;
    actions', state' := StepOn(sys, actions, state, Act(0, CheckGuard));
    assert state' == state.(senders := [Busy(job, [], 0, Checked(message))]);
    assert [Op(job, true, false)][0].job.id == job.id;
    assert IndexOf([Op(job, true, false)], job.id) == 0;
    actions', state' := StepOn(sys, actions', state', Act(0, BreakConnection));
  }

  /**
   Two requests that had both asked get the guard together, and the first to give it up takes it from the map:
   a later request is then let through although the other still has the guard.
   */
  lemma LaterRequestPasses(user: string, path: string) returns (actions: seq<Action>)
    ensures BackupSystem.Run(Fresh(user), actions).Some?
    ensures var state := BackupSystem.Run(Fresh(user), actions).value;
      HasGuard(state, AtStray(1), path) && HasAsked(state, OfSender(0), path)
  {
    hide BackupSystem.Run, Checksum, UploadSegment, Handle;
    var sys, state := Fresh(user), Fresh(user);
    actions, state := TwoHaveAskedRun(user, path);
    actions, state := FirstLeavesFirst(sys, actions, state, path);
    actions, state := OnlyOneTaken(sys, actions, state, 0, state.queue.ops[0].job);
    actions, state := OneByteSent(sys, actions, state, state.senders[0].job, 0);
    actions, state := StepOn(sys, actions, state, Act(0, CheckGuard));
  }

  lemma FirstLeavesFirst(sys: System, actions: seq<Action>, state: System, path: string)
      returns (actions': seq<Action>, state': System)
    requires BackupSystem.Run(sys, actions) == Some(state) && |state.strays| == 2 && state.svc == {}
    requires state.strays[0].phase == state.strays[1].phase == Admitted
    requires state.strays[0].request.key.path == state.strays[1].request.key.path == path
    ensures BackupSystem.Run(sys, actions') == Some(state')
    ensures state' == state.(strays := state'.strays, store := state'.store)
    ensures |state'.strays| == 2 && state'.strays[1] == state.strays[1].(phase := Guarding)
  {
    hide BackupSystem.Run, Handle;
    actions', state' := StepOn(sys, actions, state, RunOn(0));
    assert state'.strays == [state.strays[0].(phase := Guarding), state.strays[1]];
    actions', state' := StepOn(sys, actions', state', RunOn(1));
    assert state'.strays == [state.strays[0].(phase := Guarding), state.strays[1].(phase := Guarding)];
    actions', state' := StepOn(sys, actions', state', RunOn(0));
    assert state'.strays == [state.strays[0].(phase := Performed), state.strays[1].(phase := Guarding)];
    actions', state' := StepOn(sys, actions', state', RunOn(0));
    assert state'.svc == {};
  }
}
