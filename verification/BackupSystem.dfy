/**
 The whole backup system of one user as a state machine: one watcher adding operations, any number of
 sender threads, and the server answering their requests under its map of guards.
 The critical sections of queue and guard map are single steps; waiting is a disabled step.
 */
module BackupSystem {
  import opened Common
  import opened Crc32
  import opened Segments
  import opened ServerStore
  import opened UploadProtocol
  import opened QueueSpec

  /** The requests a sender makes about its path; an ABORT remembers whether the abort flag was its cause. */
  datatype Message = SegmentMessage(data: seq<Byte>) | RemoveMessage | AbortMessage(superseded: bool)

  /** Where a sender thread is, following its outstanding request through the server. */
  datatype Stage =
    | Local                               // between two requests
    | Sent(message: Message)              // the guard's constructor has not looked at the map yet
    | Checked(message: Message)           // `has` returned false
    | Guarded(message: Message)           // `add` is done
    | Executed(message: Message, ok: bool)  // the file operation is done, the guard still lives
    | Answered(message: Message, ok: bool)  // the guard is gone, the response is on its way
    | Broken(superseded: bool)            // upload_file caught an exception: an ABORT is next
    | Finished                            // the operation ended: remove_file_operation is next

  /** `sent` are the bytes of the `next` segments acknowledged so far. */
  datatype Sender = Idle | Busy(job: Job, sent: seq<Byte>, next: nat, stage: Stage)

  /** How far the server is with a request whose connection broke. */
  datatype Phase = Arrived | Admitted | Guarding | Performed | Over

  /** Such a request: the sender has given it up, but a worker of the server goes on with it. */
  datatype Stray = Stray(request: Request, phase: Phase)

  /** Such requests of this path are at work. */
  predicate StrayAtWork(strays: seq<Stray>, path: string) {
    exists k | 0 <= k < |strays| :: strays[k].request.key.path == path && !strays[k].phase.Over?
  }

  /**
   `history` lists every operation ever added and `completed` every one removed again, both in order.
   `dirty` holds the paths whose last ended operation was skipped, sent nothing or failed. `disturbed` holds
   the paths on which a connection broke under a request, until an operation is taken there while no such
   request is at work any more. `contended` says that some request on an undisturbed path was refused as a
   concurrent write.
   */
  datatype System = System(
    user: string,
    queue: Queue,
    senders: seq<Sender>,
    svc: set<string>,
    store: Store,
    history: seq<Job>,
    completed: seq<Job>,
    dirty: set<string>,
    strays: seq<Stray>,
    disturbed: set<string>,
    contended: bool)

  /** The paths of which nothing is claimed: dirty or disturbed. */
  function Unclean(sys: System): set<string> {
    sys.dirty + sys.disturbed
  }

  /** What a sender that holds an operation can do next. */
  datatype Move =
    | Skip                       // upload_file returns false before sending anything
    | SendNothing                // the segment count wrapped to a negative number: there is nothing to send
    | SendSegment(data: seq<Byte>)
    | SendRemove
    | NoticeAbort                // upload_file sees the abort flag
    | Break                      // upload_file fails otherwise, for instance on a wrong checksum
    | SendAbort
    | CheckGuard
    | TakeGuard
    | Execute
    | ReleaseGuard
    | Receive
    | LoseRequest                // the connection breaks before the server has read the request
    | BreakConnection            // the connection breaks, but the server goes on with the request
    | LoseResponse               // the connection breaks after the server is done with the request
    | Fail                       // an exception before anything is sent, caught by sender_loop
    | Complete

  datatype Action =
    | AddOp(path: string, meta: Metadata, command: Command)
    | Take(s: nat)
    | Act(s: nat, move: Move)
    | RunOn(k: nat)              // a worker goes on with a request whose connection broke

  ghost predicate Init(sys: System) {
    && sys.queue == EMPTY_QUEUE
    && (forall s | 0 <= s < |sys.senders| :: sys.senders[s] == Idle)
    && sys.svc == {}
    && sys.history == [] && sys.completed == []
    && sys.dirty == {}
    && sys.strays == [] && sys.disturbed == {}
    && !sys.contended
  }

  function CellOf(sys: System, path: string): Cell {
    At(sys.store, Key(sys.user, path))
  }

  function RequestOf(sys: System, sender: Sender, message: Message): Request
    requires sender.Busy?
  {
    var key := Key(sys.user, sender.job.path);
    match message
    case SegmentMessage(data) => Request.Upload(key, UploadSegment(sender.job.meta, sender.next, [data]))
    case RemoveMessage => Discard(key)
    case AbortMessage(_) => Discard(key)
  }

  /** The data `upload_file` sends next: as long as computed, and if last then completing the expected checksum. */
  predicate SegmentFits(job: Job, sent: seq<Byte>, next: nat, data: seq<Byte>) {
    && next < Requests(job.meta.size)
    && |data| == SegmentLength(job.meta.size, next)
    && (next == Requests(job.meta.size) - 1 ==> Checksum(sent + data) == job.meta.checksum)
  }

  predicate AbortFlag(q: Queue, id: nat) {
    IndexOf(q.ops, id) < |q.ops| && q.ops[IndexOf(q.ops, id)].abort
  }

  predicate AtServer(stage: Stage) {
    stage.Sent? || stage.Checked? || stage.Guarded? || stage.Executed?
  }

  function PhaseOf(stage: Stage): Phase
    requires AtServer(stage)
  {
    match stage
    case Sent(_) => Arrived
    case Checked(_) => Admitted
    case Guarded(_) => Guarding
    case Executed(_, _) => Performed
  }

  predicate CanMove(q: Queue, sender: Sender, move: Move)
    requires sender.Busy?
  {
    var uploading := sender.stage.Local? && sender.job.command.UploadCommand?;
    match move
    case Skip => uploading && sender.next == 0
    case SendNothing => uploading && Requests(sender.job.meta.size) <= 0
    case SendSegment(data) => uploading && SegmentFits(sender.job, sender.sent, sender.next, data)
    case SendRemove => sender.stage.Local? && sender.job.command.RemoveCommand?
    case NoticeAbort =>
      && uploading && sender.next < Requests(sender.job.meta.size)
      && SegmentLength(sender.job.meta.size, sender.next) > 0 && AbortFlag(q, sender.job.id)
    case Break => uploading
    case SendAbort => sender.stage.Broken?
    case CheckGuard => sender.stage.Sent?
    case TakeGuard => sender.stage.Checked?
    case Execute => sender.stage.Guarded?
    case ReleaseGuard => sender.stage.Executed?
    case Receive => sender.stage.Answered?
    case LoseRequest => sender.stage.Sent?
    case BreakConnection => AtServer(sender.stage)
    case LoseResponse => sender.stage.Answered?
    case Fail => sender.stage.Local? || sender.stage.Broken?
    case Complete => sender.stage.Finished?
  }

  predicate Enabled(sys: System, action: Action) {
    match action
    case AddOp(path, meta, command) => |sys.queue.ops| < QUEUE_LIMIT
    case Take(s) =>
      && s < |sys.senders| && sys.senders[s].Idle?
      && FirstReady(sys.queue.ops, sys.queue.processingFiles) < |sys.queue.ops|
    case Act(s, move) =>
      s < |sys.senders| && sys.senders[s].Busy? && CanMove(sys.queue, sys.senders[s], move)
    case RunOn(k) => k < |sys.strays| && !sys.strays[k].phase.Over?
  }

  function AtStage(sys: System, s: nat, stage: Stage): System
    requires s < |sys.senders| && sys.senders[s].Busy?
  {
    sys.(senders := sys.senders[s := sys.senders[s].(stage := stage)])
  }

  /** The exception left the file operation: `sender_loop` frees it for another attempt. */
  function GiveBack(sys: System, s: nat): System
    requires s < |sys.senders| && sys.senders[s].Busy?
  {
    sys.(queue := QueueSpec.Free(sys.queue, sys.senders[s].job.id), senders := sys.senders[s := Idle])
  }

  /** The effect of a response, as `upload_file`, `remove_file` and `sender_loop` react to it. */
  function Answer(sys: System, s: nat, message: Message, ok: bool): System
    requires s < |sys.senders| && sys.senders[s].Busy?
  {
    var sender := sys.senders[s];
    match message
    case SegmentMessage(data) =>
      if !ok then AtStage(sys, s, Broken(false))
      else if sender.next + 1 < Requests(sender.job.meta.size) then
        sys.(senders := sys.senders[s := Busy(sender.job, sender.sent + data, sender.next + 1, Local)])
      else AtStage(sys, s, Finished).(dirty := sys.dirty - {sender.job.path})
    case RemoveMessage =>
      if !ok then GiveBack(sys, s)
      else AtStage(sys, s, Finished).(dirty := sys.dirty - {sender.job.path})
    case AbortMessage(superseded) =>
      if !ok then GiveBack(sys, s)
      else if superseded then AtStage(sys, s, Finished)
      else AtStage(sys, s, Finished).(dirty := sys.dirty + {sender.job.path})
  }

  /** The sender's request becomes a stray. */
  function Abandoned(sys: System, sender: Sender): System
    requires sender.Busy? && AtServer(sender.stage)
  {
    sys.(strays := sys.strays + [Stray(RequestOf(sys, sender, sender.stage.message), PhaseOf(sender.stage))],
         disturbed := sys.disturbed + {sender.job.path})
  }

  /** The next step of a stray request: the same as of a request that is waited for. */
  function RanOn(sys: System, k: nat): System
    requires k < |sys.strays|
  {
    var stray := sys.strays[k];
    var token := Token(sys.user, stray.request.key.path);
    match stray.phase
    case Arrived => AtPhase(sys, k, if token in sys.svc then Over else Admitted)
    case Admitted => AtPhase(sys, k, Guarding).(svc := sys.svc + {token})
    case Guarding => AtPhase(sys, k, Performed).(store := Handle(sys.store, stray.request).0)
    case Performed => AtPhase(sys, k, Over).(svc := sys.svc - {token})
    case Over => sys
  }

  function AtPhase(sys: System, k: nat, phase: Phase): System
    requires k < |sys.strays|
  {
    sys.(strays := sys.strays[k := sys.strays[k].(phase := phase)])
  }

  function Moved(sys: System, s: nat, move: Move): System
    requires s < |sys.senders| && sys.senders[s].Busy? && CanMove(sys.queue, sys.senders[s], move)
  {
    var sender := sys.senders[s];
    var token := Token(sys.user, sender.job.path);
    match move
    case Skip => AtStage(sys, s, Finished).(dirty := sys.dirty + {sender.job.path})
    case SendNothing => AtStage(sys, s, Finished).(dirty := sys.dirty + {sender.job.path})
    case SendSegment(data) => AtStage(sys, s, Sent(SegmentMessage(data)))
    case SendRemove => AtStage(sys, s, Sent(RemoveMessage))
    case NoticeAbort => AtStage(sys, s, Broken(true))
    case Break => AtStage(sys, s, Broken(false))
    case SendAbort => AtStage(sys, s, Sent(AbortMessage(sender.stage.superseded)))
    case CheckGuard =>
      if token in sys.svc then
        AtStage(sys, s, Answered(sender.stage.message, false))
          .(contended := sys.contended || sender.job.path !in sys.disturbed)
      else AtStage(sys, s, Checked(sender.stage.message))
    case TakeGuard =>
      AtStage(sys, s, Guarded(sender.stage.message)).(svc := sys.svc + {token})
    case Execute =>
      var (store, outcome) := Handle(sys.store, RequestOf(sys, sender, sender.stage.message));
      AtStage(sys, s, Executed(sender.stage.message, outcome == Accepted)).(store := store)
    case ReleaseGuard =>
      AtStage(sys, s, Answered(sender.stage.message, sender.stage.ok)).(svc := sys.svc - {token})
    case Receive => Answer(sys, s, sender.stage.message, sender.stage.ok)
    case LoseRequest => Answer(sys, s, sender.stage.message, false)
    case BreakConnection =>
      Answer(Abandoned(sys, sender), s, sender.stage.message, false)
    case LoseResponse => Answer(sys, s, sender.stage.message, false)
    case Fail => GiveBack(sys, s)
    case Complete =>
      sys.(queue := Remove(sys.queue, sender.job.id),
           senders := sys.senders[s := Idle],
           completed := sys.completed + [sender.job])
  }

  function Next(sys: System, action: Action): System
    requires Enabled(sys, action)
  {
    match action
    case AddOp(path, meta, command) =>
      sys.(queue := Add(sys.queue, path, meta, command),
           history := sys.history + [Job(sys.queue.idCounter, path, command, meta)])
    case Take(s) =>
      var job := sys.queue.ops[FirstReady(sys.queue.ops, sys.queue.processingFiles)].job;
      sys.(queue := Get(sys.queue),
           senders := sys.senders[s := Busy(job, [], 0, Local)],
           disturbed := sys.disturbed - if StrayAtWork(sys.strays, job.path) then {} else {job.path})
    case Act(s, move) => Moved(sys, s, move)
    case RunOn(k) => RanOn(sys, k)
  }

  /** The state after some actions, if each was enabled when it was taken. */
  function Run(sys: System, actions: seq<Action>): Option<System> {
    if actions == [] then Some(sys)
    else
      var before := Run(sys, actions[..|actions| - 1]);
      if before.Some? && Enabled(before.value, actions[|actions| - 1])
      then Some(Next(before.value, actions[|actions| - 1]))
      else None
  }
}
