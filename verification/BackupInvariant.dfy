/** The inductive invariant of the backup system. */
module BackupInvariant {
  import opened Crc32
  import opened Segments
  import opened ServerStore
  import opened UploadProtocol
  import opened QueueSpec
  import opened BackupSystem

  /** The server holds exactly the effect of the operation. */
  ghost predicate Holds(cell: Cell, job: Job) {
    match job.command
    case RemoveCommand => cell == EMPTY_CELL
    case UploadCommand =>
      && cell.file.Some?
      && |cell.file.value| == Covered(job.meta.size)
      && Checksum(cell.file.value) == job.meta.checksum
      && cell == SealedCell(job.meta, cell.file.value)
  }

  /** No operation on the same path was added after this one. */
  ghost predicate IsLatest(history: seq<Job>, job: Job) {
    && job in history
    && forall later | later in history && later.path == job.path :: later.id <= job.id
  }

  ghost predicate Queued(ops: seq<Op>, job: Job) {
    exists op :: op in ops && op.job == job
  }

  ghost predicate QueuedInProcess(ops: seq<Op>, job: Job) {
    exists op :: op in ops && op.job == job && op.processing
  }

  ghost predicate PathIdle(ops: seq<Op>, path: string) {
    forall op | op in ops :: op.job.path != path
  }

  /**
   The newest operation on a path is still queued, or its effect is there unless it was skipped or failed, or
   a broken connection disturbed the path.
   */
  ghost predicate Settled(sys: System, job: Job) {
    || Queued(sys.queue.ops, job)
    || (PathIdle(sys.queue.ops, job.path) && (job.path in Unclean(sys) || Holds(CellOf(sys, job.path), job)))
  }

  ghost predicate HoldsGuard(sender: Sender) {
    sender.Busy? && (sender.stage.Guarded? || sender.stage.Executed?)
  }

  /** What is known about the server's cell at each stage of an upload. */
  ghost predicate UploadStage(cell: Cell, sender: Sender, latest: bool, dirty: bool)
    requires sender.Busy?
  {
    match sender.stage
    case Local => Requests(sender.job.meta.size) <= 0 || InUpload(cell, sender)
    case Sent(message) => Asked(cell, sender, message, latest)
    case Checked(message) => Asked(cell, sender, message, latest)
    case Guarded(message) => Asked(cell, sender, message, latest)
    case Executed(message, ok) => ok && Done(cell, sender, message, latest)
    case Answered(message, ok) => ok && Done(cell, sender, message, latest)
    case Broken(superseded) => superseded ==> !latest
    case Finished => latest ==> dirty || Holds(cell, sender.job)
  }

  ghost predicate InUpload(cell: Cell, sender: Sender)
    requires sender.Busy?
  {
    && sender.next < Requests(sender.job.meta.size)
    && |sender.sent| == sender.next * MAX_SEGMENT
    && Received(cell, sender.job.meta, sender.sent, sender.next)
  }

  ghost predicate Asked(cell: Cell, sender: Sender, message: Message, latest: bool)
    requires sender.Busy?
  {
    match message
    case SegmentMessage(data) => InUpload(cell, sender) && SegmentFits(sender.job, sender.sent, sender.next, data)
    case RemoveMessage => false
    case AbortMessage(superseded) => superseded ==> !latest
  }

  ghost predicate Done(cell: Cell, sender: Sender, message: Message, latest: bool)
    requires sender.Busy?
  {
    match message
    case SegmentMessage(data) =>
      && SegmentFits(sender.job, sender.sent, sender.next, data)
      && |sender.sent| == sender.next * MAX_SEGMENT
      && Received(cell, sender.job.meta, sender.sent + data, sender.next + 1)
    case RemoveMessage => false
    case AbortMessage(superseded) => superseded ==> !latest
  }

  ghost predicate RemoveStage(cell: Cell, sender: Sender)
    requires sender.Busy?
  {
    match sender.stage
    case Local => true
    case Sent(message) => message.RemoveMessage?
    case Checked(message) => message.RemoveMessage?
    case Guarded(message) => message.RemoveMessage?
    case Executed(message, ok) => message.RemoveMessage? && ok && cell == EMPTY_CELL
    case Answered(message, ok) => message.RemoveMessage? && ok && cell == EMPTY_CELL
    case Broken(_) => false
    case Finished => cell == EMPTY_CELL
  }

  ghost predicate StageOk(cell: Cell, sender: Sender, latest: bool, dirty: bool)
    requires sender.Busy?
  {
    if sender.job.command.UploadCommand? then UploadStage(cell, sender, latest, dirty) else RemoveStage(cell, sender)
  }

  ghost predicate SenderOk(sys: System, s: nat)
    requires s < |sys.senders| && sys.senders[s].Busy?
  {
    && QueuedInProcess(sys.queue.ops, sys.senders[s].job)
    && (sys.senders[s].job.path !in sys.disturbed ==> UndisturbedOk(sys, s))
  }

  ghost predicate UndisturbedOk(sys: System, s: nat)
    requires s < |sys.senders| && sys.senders[s].Busy?
  {
    var sender := sys.senders[s];
    && StageOk(CellOf(sys, sender.job.path), sender, IsLatest(sys.history, sender.job), sender.job.path in sys.dirty)
    && (HoldsGuard(sender) ==> Token(sys.user, sender.job.path) in sys.svc)
  }

  ghost predicate SenderGuards(sys: System, token: string) {
    exists s :: 0 <= s < |sys.senders| && HoldsGuard(sys.senders[s])
             && token == Token(sys.user, sys.senders[s].job.path)
  }

  ghost predicate StrayGuards(sys: System, token: string) {
    exists k :: 0 <= k < |sys.strays| && (sys.strays[k].phase.Guarding? || sys.strays[k].phase.Performed?)
             && token == Token(sys.user, sys.strays[k].request.key.path)
  }

  ghost predicate SendersOk(sys: System) {
    && (forall s | 0 <= s < |sys.senders| && sys.senders[s].Busy? :: SenderOk(sys, s))
    // different senders hold different operations
    && (forall s, t | 0 <= s < t < |sys.senders| && sys.senders[s].Busy? && sys.senders[t].Busy? ::
          sys.senders[s].job.id != sys.senders[t].job.id)
    && (forall token | token in sys.svc :: SenderGuards(sys, token) || StrayGuards(sys, token))
    && !sys.contended
  }

  /** Stray requests concern this user's paths, disturbed ones as long as the server is at work. */
  ghost predicate StraysOk(sys: System) {
    forall k | 0 <= k < |sys.strays| :: StrayOk(sys, sys.strays[k])
  }

  ghost predicate StrayOk(sys: System, stray: Stray) {
    && stray.request.key.user == sys.user
    && Mentioned(sys.history, stray.request.key.path)
    && (!stray.phase.Over? ==> stray.request.key.path in sys.disturbed)
  }

  ghost predicate HeldBySome(senders: seq<Sender>, job: Job) {
    exists s :: 0 <= s < |senders| && senders[s].Busy? && senders[s].job == job
  }

  /** No operation is in process without a sender. */
  ghost predicate AllHeld(sys: System) {
    forall op | op in sys.queue.ops && op.processing :: HeldBySome(sys.senders, op.job)
  }

  /** Operations and completions are those of the history; ids are positions in it. */
  ghost predicate HistoryOk(sys: System) {
    && |sys.history| == sys.queue.idCounter
    && (forall i | 0 <= i < |sys.history| :: sys.history[i].id == i)
    && (forall op | op in sys.queue.ops :: op.job in sys.history)
    && (forall job | job in sys.completed :: job in sys.history)
  }

  /** On each path operations complete in the order in which they were added, before those still queued. */
  ghost predicate CompletedInOrder(sys: System) {
    && (forall i, j | 0 <= i < j < |sys.completed| && sys.completed[i].path == sys.completed[j].path ::
          sys.completed[i].id < sys.completed[j].id)
    && (forall job, op | job in sys.completed && op in sys.queue.ops && job.path == op.job.path ::
          job.id < op.job.id)
  }

  ghost predicate AllSettled(sys: System) {
    forall job | IsLatest(sys.history, job) :: Settled(sys, job)
  }

  ghost predicate Mentioned(history: seq<Job>, path: string) {
    exists job :: job in history && job.path == path
  }

  /** Cells of other users and of paths never mentioned are as they were. */
  ghost predicate OthersUntouched(sys: System, store0: Store) {
    forall key: Key | key.user != sys.user || !Mentioned(sys.history, key.path) :: At(sys.store, key) == At(store0, key)
  }

  ghost predicate Invariant(sys: System, store0: Store) {
    && Inv(sys.queue)
    && HistoryOk(sys)
    && SendersOk(sys)
    && StraysOk(sys)
    && AllHeld(sys)
    && CompletedInOrder(sys)
    && AllSettled(sys)
    && OthersUntouched(sys, store0)
  }

  lemma InitInvariant(sys: System)
    requires Init(sys)
    ensures Invariant(sys, sys.store)
  {
    EmptyInv();
  }

  // ---------- consequences ----------

  /** Two senders never work on the same path. */
  lemma PathsAreExclusive(sys: System, s: nat, t: nat)
    requires Inv(sys.queue) && SendersOk(sys)
    requires s < |sys.senders| && t < |sys.senders| && s != t && sys.senders[s].Busy? && sys.senders[t].Busy?
    ensures sys.senders[s].job.path != sys.senders[t].job.path
  {
    assert SenderOk(sys, s) && SenderOk(sys, t);
    var a :| a in sys.queue.ops && a.job == sys.senders[s].job && a.processing;
    var b :| b in sys.queue.ops && b.job == sys.senders[t].job && b.processing;
    if a.job.path == b.job.path {
      OneInProcess(sys.queue, a, b);
    }
  }

  /** Tokens tell paths apart. */
  lemma TokenInjective(user: string, a: string, b: string)
    requires Token(user, a) == Token(user, b)
    ensures a == b
  {
    assert a == Token(user, a)[|user| + 1..];
    assert b == Token(user, b)[|user| + 1..];
  }

  /** A guard on a sender's path belongs to that sender or to a stray request. */
  lemma GuardIsTaken(sys: System, s: nat)
    requires Inv(sys.queue) && SendersOk(sys)
    requires s < |sys.senders| && sys.senders[s].Busy?
    ensures var token := Token(sys.user, sys.senders[s].job.path);
      token in sys.svc ==> HoldsGuard(sys.senders[s]) || StrayGuards(sys, token)
  {
    var token := Token(sys.user, sys.senders[s].job.path);
    if token in sys.svc && SenderGuards(sys, token) {
      var t :| 0 <= t < |sys.senders| && HoldsGuard(sys.senders[t])
            && token == Token(sys.user, sys.senders[t].job.path);
      TokenInjective(sys.user, sys.senders[s].job.path, sys.senders[t].job.path);
      if s != t {
        PathsAreExclusive(sys, s, t);
      }
    }
  }

  lemma StraysDisturb(sys: System, path: string)
    requires StraysOk(sys) && StrayGuards(sys, Token(sys.user, path))
    ensures path in sys.disturbed
  {
    var k :| 0 <= k < |sys.strays| && (sys.strays[k].phase.Guarding? || sys.strays[k].phase.Performed?)
          && Token(sys.user, path) == Token(sys.user, sys.strays[k].request.key.path);
    TokenInjective(sys.user, path, sys.strays[k].request.key.path);
    assert StrayOk(sys, sys.strays[k]);
  }

  /** On an undisturbed path the guard in the map is that of the sender that works on the path. */
  lemma GuardBelongs(sys: System, s: nat)
    requires Inv(sys.queue) && SendersOk(sys) && StraysOk(sys)
    requires s < |sys.senders| && sys.senders[s].Busy? && sys.senders[s].job.path !in sys.disturbed
    ensures Token(sys.user, sys.senders[s].job.path) in sys.svc <==> HoldsGuard(sys.senders[s])
  {
    assert SenderOk(sys, s) && UndisturbedOk(sys, s);
    GuardIsTaken(sys, s);
    if StrayGuards(sys, Token(sys.user, sys.senders[s].job.path)) {
      StraysDisturb(sys, sys.senders[s].job.path);
    }
  }

  // ---------- moves that keep the operation ----------

  /** The system after sender `s` became `sender`, leaving `cell` on its path. */
  function Updated(sys: System, s: nat, sender: Sender, cell: Cell, svc: set<string>, dirty: set<string>): System
    requires s < |sys.senders| && sender.Busy?
  {
    sys.(senders := sys.senders[s := sender],
         store := Put(sys.store, Key(sys.user, sender.job.path), cell),
         svc := svc,
         dirty := dirty)
  }

  /** Such a change needs to be justified on that path alone, and not even there if it is disturbed. */
  ghost predicate Justified(sys: System, sender: Sender, cell: Cell, svc: set<string>, dirty: set<string>)
    requires sender.Busy?
  {
    var path, token := sender.job.path, Token(sys.user, sender.job.path);
    && (path !in sys.disturbed ==>
          && StageOk(cell, sender, IsLatest(sys.history, sender.job), path in dirty)
          && (HoldsGuard(sender) ==> token in svc))
    && (token in svc ==> HoldsGuard(sender) || StrayGuards(sys, token))
    && (forall other | other != token :: other in svc <==> other in sys.svc)
    && (forall other | other != path :: other in dirty <==> other in sys.dirty)
  }

  lemma {:induction false} UpdateKeepsInvariant(
      sys: System, store0: Store, s: nat, sender: Sender, cell: Cell, svc: set<string>, dirty: set<string>)
    requires Invariant(sys, store0)
    requires s < |sys.senders| && sys.senders[s].Busy? && sender.Busy? && sender.job == sys.senders[s].job
    requires Justified(sys, sender, cell, svc, dirty)
    ensures Invariant(Updated(sys, s, sender, cell, svc, dirty), store0)
  {
    hide StageOk, HoldsGuard, Inv, Holds, SendersOk;
    var sys' := Updated(sys, s, sender, cell, svc, dirty);
    var path := sender.job.path;
    UpdateKeepsSenders(sys, s, sender, cell, svc, dirty);
    HeldIsQueued(sys, s);
    UpdateKeepsSettled(sys, s, sender, cell, svc, dirty);
    forall stray | stray in sys.strays
      ensures StrayOk(sys', stray)
    {
      assert StrayOk(sys, stray);
    }
    forall op | op in sys.queue.ops && op.processing
      ensures HeldBySome(sys'.senders, op.job)
    {
      HeldStays(sys.senders, s, sender, op.job);
    }
  }

  lemma HeldStays(senders: seq<Sender>, s: nat, sender: Sender, job: Job)
    requires s < |senders| && sender.Busy? && senders[s].Busy? && sender.job == senders[s].job
    requires HeldBySome(senders, job)
    ensures HeldBySome(senders[s := sender], job)
  {
    var t :| 0 <= t < |senders| && senders[t].Busy? && senders[t].job == job;
    assert senders[s := sender][t].Busy? && senders[s := sender][t].job == job;
  }

  /** A sender's operation is queued, in process and in the history. */
  lemma HeldIsQueued(sys: System, s: nat)
    requires HistoryOk(sys) && SendersOk(sys)
    requires s < |sys.senders| && sys.senders[s].Busy?
    ensures QueuedInProcess(sys.queue.ops, sys.senders[s].job)
    ensures !PathIdle(sys.queue.ops, sys.senders[s].job.path)
    ensures sys.senders[s].job in sys.history && Mentioned(sys.history, sys.senders[s].job.path)
  {
    assert SenderOk(sys, s);
    var op :| op in sys.queue.ops && op.job == sys.senders[s].job;
    assert op.job in sys.history;
  }

  lemma UpdateKeepsSettled(
      sys: System, s: nat, sender: Sender, cell: Cell, svc: set<string>, dirty: set<string>)
    requires HistoryOk(sys) && SendersOk(sys) && AllSettled(sys)
    requires s < |sys.senders| && sys.senders[s].Busy? && sender.Busy? && sender.job == sys.senders[s].job
    requires Justified(sys, sender, cell, svc, dirty)
    ensures AllSettled(Updated(sys, s, sender, cell, svc, dirty))
  {
    hide StageOk, HoldsGuard, Holds, SendersOk;
    var sys' := Updated(sys, s, sender, cell, svc, dirty);
    HeldIsQueued(sys, s);
    forall job | IsLatest(sys'.history, job)
      ensures Settled(sys', job)
    {
      assert Settled(sys, job);
      if job.path != sender.job.path {
        assert CellOf(sys', job.path) == CellOf(sys, job.path);
      }
    }
  }

  lemma UpdateKeepsSenders(
      sys: System, s: nat, sender: Sender, cell: Cell, svc: set<string>, dirty: set<string>)
    requires Inv(sys.queue) && SendersOk(sys)
    requires s < |sys.senders| && sys.senders[s].Busy? && sender.Busy? && sender.job == sys.senders[s].job
    requires Justified(sys, sender, cell, svc, dirty)
    ensures SendersOk(Updated(sys, s, sender, cell, svc, dirty))
  {
    hide StageOk, Inv, HoldsGuard;
    var sys' := Updated(sys, s, sender, cell, svc, dirty);
    var path, token := sender.job.path, Token(sys.user, sender.job.path);
    forall t | 0 <= t < |sys'.senders| && sys'.senders[t].Busy?
      ensures SenderOk(sys', t)
    {
      assert SenderOk(sys, t);
      if t != s {
        var other := sys.senders[t].job.path;
        PathsAreExclusive(sys, s, t);
        if token == Token(sys.user, other) {
          TokenInjective(sys.user, path, other);
        }
        assert CellOf(sys', other) == CellOf(sys, other);
        assert other !in sys.disturbed ==> UndisturbedOk(sys, t) && UndisturbedOk(sys', t);
      }
    }
    forall other | other in sys'.svc
      ensures SenderGuards(sys', other) || StrayGuards(sys', other)
    {
      UpdateKeepsGuards(sys, s, sender, sys', other);
    }
  }

  lemma UpdateKeepsGuards(sys: System, s: nat, sender: Sender, sys': System, token: string)
    requires s < |sys.senders| && sys.senders[s].Busy? && sender.Busy? && sender.job == sys.senders[s].job
    requires sys'.senders == sys.senders[s := sender] && sys'.user == sys.user && sys'.strays == sys.strays
    requires if token == Token(sys.user, sender.job.path) then HoldsGuard(sender) || StrayGuards(sys, token)
             else SenderGuards(sys, token) || StrayGuards(sys, token)
    ensures SenderGuards(sys', token) || StrayGuards(sys', token)
  {
    if StrayGuards(sys, token) {
      assert StrayGuards(sys', token);
    } else if token == Token(sys.user, sender.job.path) {
      assert HoldsGuard(sys'.senders[s]);
    } else {
      var t :| 0 <= t < |sys.senders| && HoldsGuard(sys.senders[t])
            && token == Token(sys.user, sys.senders[t].job.path);
      assert HoldsGuard(sys'.senders[t]);
    }
  }

  /** A change that leaves server and guards alone. */
  lemma StageChange(sys: System, store0: Store, s: nat, sender: Sender, dirty: set<string>)
    requires Invariant(sys, store0)
    requires s < |sys.senders| && sys.senders[s].Busy? && sender.Busy? && sender.job == sys.senders[s].job
    requires HoldsGuard(sender) ==> HoldsGuard(sys.senders[s])
    requires HoldsGuard(sys.senders[s]) ==>
      HoldsGuard(sender) || StrayGuards(sys, Token(sys.user, sender.job.path))
    requires sender.job.path !in sys.disturbed ==>
      StageOk(CellOf(sys, sender.job.path), sender, IsLatest(sys.history, sender.job), sender.job.path in dirty)
    requires forall path | path != sender.job.path :: path in dirty <==> path in sys.dirty
    ensures Invariant(sys.(senders := sys.senders[s := sender], dirty := dirty), store0)
  {
    hide StageOk, Inv, HoldsGuard;
    var key, cell := Key(sys.user, sender.job.path), CellOf(sys, sender.job.path);
    PutTwice(sys.store, key, cell, cell);
    assert SenderOk(sys, s);
    GuardIsTaken(sys, s);
    UpdateKeepsInvariant(sys, store0, s, sender, cell, sys.svc, dirty);
    assert Updated(sys, s, sender, cell, sys.svc, dirty) == sys.(senders := sys.senders[s := sender], dirty := dirty);
  }
}
