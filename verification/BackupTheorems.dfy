/** What every run of the backup system guarantees. */
module BackupTheorems {
  import opened Common
  import opened Segments
  import opened ServerStore
  import opened QueueSpec
  import opened BackupSystem
  import opened BackupInvariant
  import opened BackupSteps

  // ---------- the simple system: operations take effect at once, in order ----------

  /** What a probe shows of an uploaded file; where the segment count is 0, the row is never sealed. */
  function Shown(meta: Metadata): Metadata {
    if CountSegments(meta.size) == 0 then NO_METADATA else meta
  }

  function Effect(view: map<string, Metadata>, job: Job): map<string, Metadata> {
    match job.command
    case UploadCommand => view[job.path := Shown(job.meta)]
    case RemoveCommand => view - {job.path}
  }

  /** The server's files after the operations ran one after the other. */
  function Sequential(view: map<string, Metadata>, history: seq<Job>): map<string, Metadata> {
    if history == [] then view
    else Effect(Sequential(view, history[..|history| - 1]), history[|history| - 1])
  }

  /** The operation added last for this path. */
  function Newest(history: seq<Job>, path: string): Option<Job> {
    if history == [] then None
    else if history[|history| - 1].path == path then Some(history[|history| - 1])
    else Newest(history[..|history| - 1], path)
  }

  lemma {:induction false} SequentialAt(view: map<string, Metadata>, history: seq<Job>, path: string)
    ensures var newest := Newest(history, path);
      && (path in Sequential(view, history) <==>
            if newest.Some? then newest.value.command.UploadCommand? else path in view)
      && (path in Sequential(view, history) ==>
            Sequential(view, history)[path] == (if newest.Some? then Shown(newest.value.meta) else view[path]))
  {
    if history != [] {
      SequentialAt(view, history[..|history| - 1], path);
    }
  }

  predicate IdsArePositions(history: seq<Job>) {
    forall i | 0 <= i < |history| :: history[i].id == i
  }

  lemma {:induction false} NewestIsLatest(history: seq<Job>, path: string)
    requires IdsArePositions(history)
    ensures Newest(history, path).Some? <==> Mentioned(history, path)
    ensures Newest(history, path).Some? ==>
      Newest(history, path).value.path == path && IsLatest(history, Newest(history, path).value)
  {
    if history != [] {
      var init, last := history[..|history| - 1], history[|history| - 1];
      NewestIsLatest(init, path);
      assert history == init + [last];
      assert forall job | job in init :: job in history && job.id < last.id;
      if Mentioned(history, path) && last.path != path {
        var job :| job in history && job.path == path;
        assert job in init;
      }
    }
  }

  // ---------- runs ----------

  /** A step changes the history only by adding an operation. */
  lemma NextAdds(sys: System, action: Action)
    requires Enabled(sys, action)
    ensures Next(sys, action).user == sys.user && |Next(sys, action).senders| == |sys.senders|
    ensures Next(sys, action).history
      == if action.AddOp? then sys.history + [Job(sys.queue.idCounter, action.path, action.command, action.meta)]
         else sys.history
  {
    hide CanMove, Moved, QueueSpec.Get, QueueSpec.Add;
    if action.Act? {
      MoveAddsNothing(sys, action.s, action.move);
    }
  }

  lemma MoveAddsNothing(sys: System, s: nat, move: Move)
    requires s < |sys.senders| && sys.senders[s].Busy? && CanMove(sys.queue, sys.senders[s], move)
    ensures Moved(sys, s, move).user == sys.user && Moved(sys, s, move).history == sys.history
    ensures |Moved(sys, s, move).senders| == |sys.senders|
  {
    hide SegmentFits, AbortFlag, GiveBack, Answer, QueueSpec.Remove, Handle;
    GivingBackAddsNothing(sys, s);
    var stage := sys.senders[s].stage;
    if stage.Answered? {
      AnswerAddsNothing(sys, s, stage.message, stage.ok);
      AnswerAddsNothing(sys, s, stage.message, false);
    } else if AtServer(stage) {
      AnswerAddsNothing(sys, s, stage.message, false);
      AnswerAddsNothing(Abandoned(sys, sys.senders[s]), s, stage.message, false);
    }
  }

  lemma GivingBackAddsNothing(sys: System, s: nat)
    requires s < |sys.senders| && sys.senders[s].Busy?
    ensures GiveBack(sys, s).user == sys.user && GiveBack(sys, s).history == sys.history
    ensures |GiveBack(sys, s).senders| == |sys.senders|
  {
    hide QueueSpec.Free;
  }

  lemma AnswerAddsNothing(sys: System, s: nat, message: Message, ok: bool)
    requires s < |sys.senders| && sys.senders[s].Busy?
    ensures Answer(sys, s, message, ok).user == sys.user && Answer(sys, s, message, ok).history == sys.history
    ensures |Answer(sys, s, message, ok).senders| == |sys.senders|
  {
    hide QueueSpec.Free, Requests;
  }

  lemma {:induction false} RunKeepsUser(sys: System, actions: seq<Action>)
    requires Run(sys, actions).Some?
    ensures Run(sys, actions).value.user == sys.user
  {
    if actions != [] {
      hide Enabled, Next;
      RunKeepsUser(sys, actions[..|actions| - 1]);
      NextAdds(Run(sys, actions[..|actions| - 1]).value, actions[|actions| - 1]);
    }
  }

  /** The operations that the watcher added during a run. */
  function Added(actions: seq<Action>): seq<Action> {
    if actions == [] then []
    else Added(actions[..|actions| - 1]) + if actions[|actions| - 1].AddOp? then [actions[|actions| - 1]] else []
  }

  ghost predicate Records(history: seq<Job>, added: seq<Action>) {
    && |history| == |added|
    && forall i | 0 <= i < |history| ::
         added[i] == AddOp(history[i].path, history[i].meta, history[i].command)
  }

  lemma {:induction false} HistoryRecordsAdditions(sys: System, actions: seq<Action>)
    requires Init(sys) && Run(sys, actions).Some?
    ensures Records(Run(sys, actions).value.history, Added(actions))
  {
    if actions != [] {
      hide Enabled, Next;
      HistoryRecordsAdditions(sys, actions[..|actions| - 1]);
      NextAdds(Run(sys, actions[..|actions| - 1]).value, actions[|actions| - 1]);
    }
  }

  // ---------- coalescing ----------

  /** `job` is in the queue, and the last there on its path. */
  ghost predicate LastQueued(ops: seq<Op>, job: Job) {
    exists n :: 0 <= n < |ops| && ops[n].job == job
             && forall m | n < m < |ops| :: ops[m].job.path != job.path
  }

  /**
   Coalescing loses nothing: the operation added last for a path is the last one queued for it, or none
   is queued and the server holds exactly that operation's effect (unless it was skipped or failed, or a
   connection broke on the path while the server went on with the request).
   */
  lemma {:induction false} NewestIsNeverLost(sys: System, actions: seq<Action>, path: string)
    requires Init(sys) && Run(sys, actions).Some?
    ensures var sys' := Run(sys, actions).value;
      match Newest(sys'.history, path)
      case None => PathIdle(sys'.queue.ops, path) && CellOf(sys', path) == CellOf(sys, path)
      case Some(job) =>
        || LastQueued(sys'.queue.ops, job)
        || (PathIdle(sys'.queue.ops, path) && (path in Unclean(sys') || Holds(CellOf(sys', path), job)))
  {
    hide Holds;
    var sys' := Run(sys, actions).value;
    RunKeepsInvariant(sys, actions);
    RunKeepsUser(sys, actions);
    NewestIsLatest(sys'.history, path);
    if Newest(sys'.history, path).Some? {
      var job := Newest(sys'.history, path).value;
      assert Settled(sys', job);
      if Queued(sys'.queue.ops, job) {
        QueuedLast(sys', job);
      }
    }
  }

  lemma QueuedLast(sys: System, job: Job)
    requires Inv(sys.queue) && HistoryOk(sys)
    requires IsLatest(sys.history, job) && Queued(sys.queue.ops, job)
    ensures LastQueued(sys.queue.ops, job)
  {
    var op :| op in sys.queue.ops && op.job == job;
    var n :| 0 <= n < |sys.queue.ops| && sys.queue.ops[n] == op;
    forall m | n < m < |sys.queue.ops|
      ensures sys.queue.ops[m].job.path != job.path
    {
      assert sys.queue.ops[m] in sys.queue.ops;
    }
  }

  lemma {:induction false} NewestIsOnPath(history: seq<Job>, path: string)
    requires Newest(history, path).Some?
    ensures Newest(history, path).value.path == path
  {
    if history[|history| - 1].path != path {
      NewestIsOnPath(history[..|history| - 1], path);
    }
  }

  lemma IdleIsNotQueued(ops: seq<Op>, path: string)
    requires PathIdle(ops, path)
    ensures forall job | LastQueued(ops, job) :: job.path != path
  {
    forall job | LastQueued(ops, job)
      ensures job.path != path
    {
      var n :| 0 <= n < |ops| && ops[n].job == job;
      assert ops[n] in ops;
    }
  }

  lemma HoldsShows(cell: Cell, job: Job)
    requires Holds(cell, job)
    ensures cell.row.Some? <==> job.command.UploadCommand?
    ensures cell.row.Some? ==> Reported(cell.row.value) == Shown(job.meta)
  {}

  /** Unclean paths apart, a drained queue leaves the server as if all operations had run at once, in order. */
  lemma {:induction false} DrainedMeansSequential(sys: System, actions: seq<Action>)
    requires Init(sys) && Run(sys, actions).Some? && Run(sys, actions).value.queue.ops == []
    ensures var sys' := Run(sys, actions).value;
      var shown, expected := Probe(sys'.store, sys.user), Sequential(Probe(sys.store, sys.user), sys'.history);
      && (forall path | path !in Unclean(sys') ::
            && (path in shown <==> path in expected)
            && (path in shown ==> shown[path] == expected[path]))
      && (Unclean(sys') == {} ==> shown == expected)
  {
    hide Holds;
    var sys' := Run(sys, actions).value;
    var shown, expected := Probe(sys'.store, sys.user), Sequential(Probe(sys.store, sys.user), sys'.history);
    RunKeepsUser(sys, actions);
    forall path | path !in Unclean(sys')
      ensures (path in shown <==> path in expected) && (path in shown ==> shown[path] == expected[path])
    {
      NewestIsNeverLost(sys, actions, path);
      SequentialAt(Probe(sys.store, sys.user), sys'.history, path);
      ProbeAt(sys.store, sys.user, path);
      ProbeAt(sys'.store, sys.user, path);
      if Newest(sys'.history, path).Some? {
        HoldsShows(CellOf(sys', path), Newest(sys'.history, path).value);
      }
    }
  }

  // ---------- exclusion ----------

  /** The sender waits for the answer to a request that takes a guard. */
  predicate Outstanding(sender: Sender) {
    sender.Busy? && (sender.stage.Sent? || sender.stage.Checked? || sender.stage.Guarded? || sender.stage.Executed?
                     || sender.stage.Answered?)
  }

  /**
   Two senders never wait on the same path. No request is refused, as a concurrent write or otherwise, unless
   its path is disturbed.
   */
  lemma {:induction false} NoContention(sys: System, actions: seq<Action>)
    requires Init(sys) && Run(sys, actions).Some?
    ensures var sys' := Run(sys, actions).value;
      && !sys'.contended
      && (forall s, t | 0 <= s < t < |sys'.senders| && Outstanding(sys'.senders[s]) && Outstanding(sys'.senders[t]) ::
            sys'.senders[s].job.path != sys'.senders[t].job.path)
      && (forall s | 0 <= s < |sys'.senders| && sys'.senders[s].Busy? &&
                     (sys'.senders[s].stage.Executed? || sys'.senders[s].stage.Answered?) ::
            sys'.senders[s].stage.ok || sys'.senders[s].job.path in sys'.disturbed)
  {
    hide Inv;
    var sys' := Run(sys, actions).value;
    RunKeepsInvariant(sys, actions);
    forall s, t | 0 <= s < t < |sys'.senders| && Outstanding(sys'.senders[s]) && Outstanding(sys'.senders[t])
      ensures sys'.senders[s].job.path != sys'.senders[t].job.path
    {
      PathsAreExclusive(sys', s, t);
    }
    forall s | 0 <= s < |sys'.senders| && sys'.senders[s].Busy? &&
               (sys'.senders[s].stage.Executed? || sys'.senders[s].stage.Answered?)
      ensures sys'.senders[s].stage.ok || sys'.senders[s].job.path in sys'.disturbed
    {
      assert SenderOk(sys', s);
    }
  }

  /** `contended` records every refusal on an undisturbed path. */
  lemma RefusalIsRecorded(sys: System, s: nat)
    requires s < |sys.senders| && sys.senders[s].Busy? && sys.senders[s].stage.Sent?
    requires Token(sys.user, sys.senders[s].job.path) in sys.svc && sys.senders[s].job.path !in sys.disturbed
    ensures Enabled(sys, Act(s, CheckGuard)) && Next(sys, Act(s, CheckGuard)).contended
  {}

  /** On an undisturbed path a request that asks for its guard is let through. */
  lemma {:induction false} AskingSucceeds(sys: System, actions: seq<Action>, s: nat)
    requires Init(sys) && Run(sys, actions).Some?
    requires s < |Run(sys, actions).value.senders| && Run(sys, actions).value.senders[s].Busy?
    requires Run(sys, actions).value.senders[s].stage.Sent?
    requires Run(sys, actions).value.senders[s].job.path !in Run(sys, actions).value.disturbed
    ensures var before := Run(sys, actions).value;
      && Enabled(before, Act(s, CheckGuard))
      && Next(before, Act(s, CheckGuard)).senders[s]
           == before.senders[s].(stage := Checked(before.senders[s].stage.message))
  {
    hide Run, Inv;
    RunKeepsInvariant(sys, actions);
    GuardBelongs(Run(sys, actions).value, s);
  }

  // ---------- the queue ----------

  /** In every run: abort means superseded, exclusion and order per path, bounded size, exact bookkeeping. */
  lemma {:induction false} QueueIsSound(sys: System, actions: seq<Action>)
    requires Init(sys) && Run(sys, actions).Some?
    ensures var sys' := Run(sys, actions).value;
      && Inv(sys'.queue) && |sys'.queue.ops| <= 100
      && CompletedInOrder(sys')
      && (forall op | op in sys'.queue.ops :: op.abort <==> !IsLatest(sys'.history, op.job))
  {
    var sys' := Run(sys, actions).value;
    RunKeepsInvariant(sys, actions);
    forall op | op in sys'.queue.ops
      ensures op.abort <==> !IsLatest(sys'.history, op.job)
    {
      AbortIffNotNewest(sys', op);
    }
  }

  lemma AbortIffNotNewest(sys: System, op: Op)
    requires Inv(sys.queue) && HistoryOk(sys) && AllSettled(sys) && op in sys.queue.ops
    ensures op.abort <==> !IsLatest(sys.history, op.job)
  {
    hide Holds;
    var ops, path := sys.queue.ops, op.job.path;
    assert op.job in sys.history;
    if Superseded(ops, op) {
      var later :| later in ops && Supersedes(later, op);
      assert later.job in sys.history;
    } else if !IsLatest(sys.history, op.job) {
      NewestIsLatest(sys.history, path);
    }
  }

  /** Files of other users, and files no operation was about, are left alone. */
  lemma {:induction false} OthersAreLeftAlone(sys: System, actions: seq<Action>, key: Key)
    requires Init(sys) && Run(sys, actions).Some?
    requires key.user != sys.user || !Mentioned(Run(sys, actions).value.history, key.path)
    ensures At(Run(sys, actions).value.store, key) == At(sys.store, key)
  {
    RunKeepsInvariant(sys, actions);
    RunKeepsUser(sys, actions);
  }

  // ---------- progress ----------

  /** In every run an operation in process is held by a sender: none blocks its path for ever. */
  lemma {:induction false} NothingIsOrphaned(sys: System, actions: seq<Action>, op: Op)
    requires Init(sys) && Run(sys, actions).Some?
    requires op in Run(sys, actions).value.queue.ops && op.processing
    ensures HeldBySome(Run(sys, actions).value.senders, op.job)
  {
    hide Inv, SendersOk, StraysOk, AllSettled;
    RunKeepsInvariant(sys, actions);
  }

  /** A step of a sender that is not a failure of its connection or its file. */
  predicate IsProgress(action: Action) {
    || action.Take?
    || (action.Act? && !action.move.Fail? && !action.move.LoseRequest? && !action.move.BreakConnection?
        && !action.move.LoseResponse?)
  }

  /** In every run some sender can go on as long as an operation is queued. */
  lemma {:induction false} NothingIsStuck(sys: System, actions: seq<Action>)
    requires Init(sys) && Run(sys, actions).Some?
    requires |sys.senders| > 0 && Run(sys, actions).value.queue.ops != []
    ensures exists action :: IsProgress(action) && Enabled(Run(sys, actions).value, action)
  {
    hide Inv, SendersOk, StraysOk, AllSettled, Run, Enabled;
    var sys' := Run(sys, actions).value;
    RunKeepsInvariant(sys, actions);
    SendersStay(sys, actions);
    if s :| 0 <= s < |sys'.senders| && sys'.senders[s].Busy? {
      BusyGoesOn(sys', s);
    } else {
      IdleCanTake(sys');
    }
  }

  lemma BusyGoesOn(sys: System, s: nat)
    requires s < |sys.senders| && sys.senders[s].Busy?
    ensures exists action :: IsProgress(action) && Enabled(sys, action)
  {
    var sender := sys.senders[s];
    var move := match sender.stage
      case Local => if sender.job.command.UploadCommand? then Break else SendRemove
      case Sent(_) => CheckGuard
      case Checked(_) => TakeGuard
      case Guarded(_) => Execute
      case Executed(_, _) => ReleaseGuard
      case Answered(_, _) => Receive
      case Broken(_) => SendAbort
      case Finished => Complete;
    assert IsProgress(Act(s, move)) && Enabled(sys, Act(s, move));
  }

  lemma IdleCanTake(sys: System)
    requires Inv(sys.queue) && AllHeld(sys) && sys.queue.ops != []
    requires |sys.senders| > 0 && forall s | 0 <= s < |sys.senders| :: sys.senders[s].Idle?
    ensures exists action :: IsProgress(action) && Enabled(sys, action)
  {
    var op := sys.queue.ops[0];
    assert op in sys.queue.ops;
    forall other | other in sys.queue.ops
      ensures !other.processing
    {
      assert other.processing ==> HeldBySome(sys.senders, other.job);
    }
    assert !InProcess(sys.queue.ops, op.job.path);
    assert Ready(op, sys.queue.processingFiles);
    assert IsProgress(Take(0)) && Enabled(sys, Take(0));
  }

  lemma {:induction false} SendersStay(sys: System, actions: seq<Action>)
    requires Run(sys, actions).Some?
    ensures |Run(sys, actions).value.senders| == |sys.senders|
  {
    if actions != [] {
      hide Enabled, Next;
      SendersStay(sys, actions[..|actions| - 1]);
      NextAdds(Run(sys, actions[..|actions| - 1]).value, actions[|actions| - 1]);
    }
  }
}
