/** Every step of the backup system keeps its invariant. */
module BackupSteps {
  import opened Common
  import opened Crc32
  import opened Segments
  import opened ServerStore
  import opened UploadProtocol
  import opened QueueSpec
  import opened BackupSystem
  import opened BackupInvariant
  import opened BackupQueueSteps

  // ---------- the moves of a sender ----------

  /** An abort flag is only ever seen on an operation that is no longer the newest on its path. */
  lemma AbortMeansSuperseded(sys: System, s: nat)
    requires Inv(sys.queue) && HistoryOk(sys)
    requires s < |sys.senders| && sys.senders[s].Busy? && QueuedInProcess(sys.queue.ops, sys.senders[s].job)
    requires AbortFlag(sys.queue, sys.senders[s].job.id)
    ensures !IsLatest(sys.history, sys.senders[s].job)
  {
    var job := sys.senders[s].job;
    HeldByIndex(sys.queue, job);
    var op := sys.queue.ops[IndexOf(sys.queue.ops, job.id)];
    assert op in sys.queue.ops && Superseded(sys.queue.ops, op);
    var later :| later in sys.queue.ops && Supersedes(later, op);
    assert later.job in sys.history;
  }

  /** The server accepts every request of the protocol, and its cell is then as expected. */
  lemma ExecutionSucceeds(sys: System, s: nat, latest: bool, dirty: bool)
    requires s < |sys.senders| && sys.senders[s].Busy? && sys.senders[s].stage.Guarded?
    requires StageOk(CellOf(sys, sys.senders[s].job.path), sys.senders[s], latest, dirty)
    ensures var sender := sys.senders[s];
      var (cell, outcome) :=
        Respond(CellOf(sys, sender.job.path), RequestOf(sys, sender, sender.stage.message));
      outcome == Accepted
      && StageOk(cell, sender.(stage := Executed(sender.stage.message, true)), latest, dirty)
  {
    var sender := sys.senders[s];
    match sender.stage.message
    case RemoveMessage =>
    case AbortMessage(_) =>
    case SegmentMessage(data) =>
      assert sender.job.command.UploadCommand?;
      assert Flatten([data]) == data by {
        FlattenAppend([], data);
        assert [] + [data] == [data];
      }
      NextSegmentIsAccepted(CellOf(sys, sender.job.path), sender.job.meta, sender.sent, sender.next, [data]);
  }

  /** After the last segment the server holds the file; before it, one more segment. */
  lemma SegmentAcknowledged(cell: Cell, sender: Sender, data: seq<Byte>, latest: bool, dirty: bool)
    requires sender.Busy? && sender.job.command.UploadCommand?
    requires Done(cell, sender, SegmentMessage(data), latest)
    ensures sender.next + 1 < Requests(sender.job.meta.size) ==>
      StageOk(cell, Busy(sender.job, sender.sent + data, sender.next + 1, Local), latest, dirty)
    ensures sender.next + 1 >= Requests(sender.job.meta.size) ==>
      StageOk(cell, sender.(stage := Finished), latest, dirty)
  {
    SegmentEnd(sender.job.meta.size, sender.next);
  }

  lemma {:induction false} ExecuteKeepsInvariant(sys: System, store0: Store, s: nat)
    requires Invariant(sys, store0)
    requires s < |sys.senders| && sys.senders[s].Busy? && sys.senders[s].stage.Guarded?
    ensures Invariant(Moved(sys, s, Execute), store0)
  {
    hide Inv, StageOk, Moved, Updated, SendersOk;
    var job, sys' := sys.senders[s].job, Moved(sys, s, Execute);
    SenderIsOk(sys, s);
    if job.path !in sys.disturbed {
      assert UndisturbedOk(sys, s);
      ExecutionSucceeds(sys, s, IsLatest(sys.history, job), job.path in sys.dirty);
    }
    ExecuteUpdates(sys, s);
    GuardIsTaken(sys, s);
    UpdateKeepsInvariant(sys, store0, s, sys'.senders[s], CellOf(sys', job.path), sys.svc, sys.dirty);
  }

  lemma ExecuteUpdates(sys: System, s: nat)
    requires s < |sys.senders| && sys.senders[s].Busy? && sys.senders[s].stage.Guarded?
    ensures var sender, sys' := sys.senders[s], Moved(sys, s, Execute);
      var (cell, outcome) := Respond(CellOf(sys, sender.job.path), RequestOf(sys, sender, sender.stage.message));
      && |sys'.senders| == |sys.senders|
      && sys'.senders[s] == sender.(stage := Executed(sender.stage.message, outcome == Accepted))
      && CellOf(sys', sender.job.path) == cell
      && sys' == Updated(sys, s, sys'.senders[s], cell, sys.svc, sys.dirty)
  {
    hide Respond;
    var sender := sys.senders[s];
    assert RequestOf(sys, sender, sender.stage.message).key == Key(sys.user, sender.job.path);
  }

  lemma GuardMoveStage(sys: System, s: nat, move: Move, cell: Cell, latest: bool, dirty: bool)
    requires move.TakeGuard? || move.ReleaseGuard?
    requires s < |sys.senders| && sys.senders[s].Busy? && CanMove(sys.queue, sys.senders[s], move)
    requires StageOk(cell, sys.senders[s], latest, dirty)
    ensures |Moved(sys, s, move).senders| == |sys.senders|
    ensures var sender' := Moved(sys, s, move).senders[s];
      sender'.Busy? && sender'.job == sys.senders[s].job && StageOk(cell, sender', latest, dirty)
  {
    hide Received, Holds, SegmentFits;
  }

  lemma GuardMoveUpdates(sys: System, s: nat, move: Move)
    requires move.TakeGuard? || move.ReleaseGuard?
    requires s < |sys.senders| && sys.senders[s].Busy? && CanMove(sys.queue, sys.senders[s], move)
    ensures var job, sys' := sys.senders[s].job, Moved(sys, s, move);
      var token := Token(sys.user, job.path);
      && |sys'.senders| == |sys.senders| && sys'.senders[s].Busy? && sys'.senders[s].job == job
      && sys' == Updated(sys, s, sys'.senders[s], CellOf(sys, job.path), sys'.svc, sys.dirty)
      && sys'.svc == (if move.TakeGuard? then sys.svc + {token} else sys.svc - {token})
      && (HoldsGuard(sys'.senders[s]) <==> move.TakeGuard?)
  {
    var cell := CellOf(sys, sys.senders[s].job.path);
    PutTwice(sys.store, Key(sys.user, sys.senders[s].job.path), cell, cell);
  }

  /** Taking and releasing a guard. */
  lemma {:induction false} GuardMoveKeepsInvariant(sys: System, store0: Store, s: nat, move: Move)
    requires Invariant(sys, store0) && (move.TakeGuard? || move.ReleaseGuard?)
    requires s < |sys.senders| && sys.senders[s].Busy? && CanMove(sys.queue, sys.senders[s], move)
    ensures Invariant(Moved(sys, s, move), store0)
  {
    hide Inv, StageOk, HoldsGuard, Moved, Updated, SendersOk;
    var job, sys' := sys.senders[s].job, Moved(sys, s, move);
    SenderIsOk(sys, s);
    if job.path !in sys.disturbed {
      assert UndisturbedOk(sys, s);
      GuardMoveStage(sys, s, move, CellOf(sys, job.path), IsLatest(sys.history, job), job.path in sys.dirty);
    }
    GuardMoveUpdates(sys, s, move);
    UpdateKeepsInvariant(sys, store0, s, sys'.senders[s], CellOf(sys, job.path), sys'.svc, sys.dirty);
  }

  predicate OnClientSide(move: Move) {
    move.Skip? || move.SendNothing? || move.SendSegment? || move.SendRemove? || move.NoticeAbort? || move.Break?
    || move.SendAbort? || move.CheckGuard?
  }

  /** Such a move changes only the sender's stage and what is known of its path. */
  lemma ClientMoveForm(sys: System, s: nat, move: Move)
    requires s < |sys.senders| && sys.senders[s].Busy? && CanMove(sys.queue, sys.senders[s], move)
    requires OnClientSide(move)
    requires move.CheckGuard? && sys.senders[s].job.path !in sys.disturbed ==>
      Token(sys.user, sys.senders[s].job.path) !in sys.svc
    ensures var sys' := Moved(sys, s, move);
      && |sys'.senders| == |sys.senders|
      && sys' == sys.(senders := sys.senders[s := sys'.senders[s]], dirty := sys'.dirty)
      && sys'.senders[s].Busy? && sys'.senders[s].job == sys.senders[s].job
      && !HoldsGuard(sys'.senders[s]) && !HoldsGuard(sys.senders[s])
      && (forall path | path != sys.senders[s].job.path :: path in sys'.dirty <==> path in sys.dirty)
  {
    hide AbortFlag, SegmentFits;
  }

  /** On an undisturbed path the stage after it is in order; a guard found taken would not be. */
  lemma ClientMoveStage(sys: System, s: nat, move: Move, cell: Cell, latest: bool)
    requires s < |sys.senders| && sys.senders[s].Busy? && CanMove(sys.queue, sys.senders[s], move)
    requires OnClientSide(move)
    requires StageOk(cell, sys.senders[s], latest, sys.senders[s].job.path in sys.dirty)
    requires move.NoticeAbort? ==> !latest
    requires move.CheckGuard? ==> Token(sys.user, sys.senders[s].job.path) !in sys.svc
    ensures var sys' := Moved(sys, s, move);
      && |sys'.senders| == |sys.senders| && sys'.senders[s].Busy?
      && StageOk(cell, sys'.senders[s], latest, sys.senders[s].job.path in sys'.dirty)
  {
    hide Received, Holds, AbortFlag;
  }

  /** Moves on the client's side alone. */
  lemma {:induction false} ClientMoveKeepsInvariant(sys: System, store0: Store, s: nat, move: Move)
    requires Invariant(sys, store0)
    requires s < |sys.senders| && sys.senders[s].Busy? && CanMove(sys.queue, sys.senders[s], move)
    requires OnClientSide(move)
    ensures Invariant(Moved(sys, s, move), store0)
  {
    hide Inv, StageOk, HoldsGuard, Moved, OnClientSide, SegmentFits, SendersOk;
    var job, sys' := sys.senders[s].job, Moved(sys, s, move);
    SenderIsOk(sys, s);
    if move.NoticeAbort? {
      AbortMeansSuperseded(sys, s);
    }
    if job.path !in sys.disturbed {
      assert UndisturbedOk(sys, s);
      GuardBelongs(sys, s);
      SentHoldsNoGuard(sys.senders[s]);
      ClientMoveStage(sys, s, move, CellOf(sys, job.path), IsLatest(sys.history, job));
    }
    ClientMoveForm(sys, s, move);
    StageChange(sys, store0, s, sys'.senders[s], sys'.dirty);
  }

  lemma SentHoldsNoGuard(sender: Sender)
    requires sender.Busy?
    ensures sender.stage.Sent? ==> !HoldsGuard(sender)
  {}

  // ---------- responses and broken connections ----------

  /** A response that reports success. */
  lemma {:induction false} SuccessKeepsInvariant(sys: System, store0: Store, s: nat)
    requires Invariant(sys, store0)
    requires s < |sys.senders| && sys.senders[s].Busy? && sys.senders[s].stage.Answered? && sys.senders[s].stage.ok
    ensures Invariant(Answer(sys, s, sys.senders[s].stage.message, true), store0)
  {
    hide Inv, StageOk, HoldsGuard, Answer, SendersOk;
    var job, message := sys.senders[s].job, sys.senders[s].stage.message;
    var sys' := Answer(sys, s, message, true);
    SenderIsOk(sys, s);
    if job.path !in sys.disturbed {
      assert UndisturbedOk(sys, s);
      SuccessStage(sys, s, CellOf(sys, job.path), IsLatest(sys.history, job));
    }
    SuccessForm(sys, s);
    StageChange(sys, store0, s, sys'.senders[s], sys'.dirty);
  }

  lemma SuccessForm(sys: System, s: nat)
    requires s < |sys.senders| && sys.senders[s].Busy? && sys.senders[s].stage.Answered?
    ensures var sys' := Answer(sys, s, sys.senders[s].stage.message, true);
      && |sys'.senders| == |sys.senders|
      && sys' == sys.(senders := sys.senders[s := sys'.senders[s]], dirty := sys'.dirty)
      && sys'.senders[s].Busy? && sys'.senders[s].job == sys.senders[s].job
      && !HoldsGuard(sys'.senders[s]) && !HoldsGuard(sys.senders[s])
      && (forall path | path != sys.senders[s].job.path :: path in sys'.dirty <==> path in sys.dirty)
  {}

  lemma SuccessStage(sys: System, s: nat, cell: Cell, latest: bool)
    requires s < |sys.senders| && sys.senders[s].Busy? && sys.senders[s].stage.Answered?
    requires StageOk(cell, sys.senders[s], latest, sys.senders[s].job.path in sys.dirty)
    ensures var sys' := Answer(sys, s, sys.senders[s].stage.message, true);
      && |sys'.senders| == |sys.senders| && sys'.senders[s].Busy?
      && StageOk(cell, sys'.senders[s], latest, sys.senders[s].job.path in sys'.dirty)
  {
    hide Received, Holds, SegmentFits;
    var sender := sys.senders[s];
    if sender.stage.message.SegmentMessage? {
      SegmentAcknowledged(cell, sender, sender.stage.message.data, latest,
                          sender.job.path in Answer(sys, s, sender.stage.message, true).dirty);
    }
  }

  /**
   No response, or one that reports failure: the client gives up the request. If the server still guards it,
   the guard now belongs to a stray request.
   */
  lemma {:induction false} FailureKeepsInvariant(sys: System, store0: Store, s: nat, message: Message)
    requires Invariant(sys, store0)
    requires s < |sys.senders| && sys.senders[s].Busy?
    requires HoldsGuard(sys.senders[s]) ==> StrayGuards(sys, Token(sys.user, sys.senders[s].job.path))
    requires sys.senders[s].job.path !in sys.disturbed && message.SegmentMessage? ==>
      sys.senders[s].job.command.UploadCommand?
    ensures Invariant(Answer(sys, s, message, false), store0)
  {
    hide Inv, StageOk, HoldsGuard, SendersOk;
    var sender := sys.senders[s];
    if message.SegmentMessage? {
      BrokenIsOk(CellOf(sys, sender.job.path), sender, IsLatest(sys.history, sender.job), sender.job.path in sys.dirty);
      StageChange(sys, store0, s, sender.(stage := Broken(false)), sys.dirty);
    } else if HoldsGuard(sender) {
      StraysDisturb(sys, sender.job.path);
      BrokenHoldsNoGuard(sender);
      StageChange(sys, store0, s, sender.(stage := Finished), sys.dirty);
      var parked := AtStage(sys, s, Finished);
      GiveBackKeepsInvariant(parked, store0, s);
      assert GiveBack(parked, s) == GiveBack(sys, s);
    } else {
      GiveBackKeepsInvariant(sys, store0, s);
    }
  }

  lemma BrokenHoldsNoGuard(sender: Sender)
    requires sender.Busy?
    ensures !HoldsGuard(sender.(stage := Finished)) && !HoldsGuard(sender.(stage := Broken(false)))
  {}

  lemma BrokenIsOk(cell: Cell, sender: Sender, latest: bool, dirty: bool)
    requires sender.Busy?
    ensures !HoldsGuard(sender.(stage := Broken(false)))
    ensures sender.job.command.UploadCommand? ==> StageOk(cell, sender.(stage := Broken(false)), latest, dirty)
  {}

  /** A path is disturbed when a request on it becomes a stray. */
  lemma {:induction false} AbandonKeepsInvariant(sys: System, store0: Store, s: nat)
    requires Invariant(sys, store0)
    requires s < |sys.senders| && sys.senders[s].Busy? && AtServer(sys.senders[s].stage)
    ensures Invariant(Abandoned(sys, sys.senders[s]), store0)
    ensures HoldsGuard(sys.senders[s]) ==>
      StrayGuards(Abandoned(sys, sys.senders[s]), Token(sys.user, sys.senders[s].job.path))
  {
    hide Inv, StageOk, Holds;
    var sender, sys' := sys.senders[s], Abandoned(sys, sys.senders[s]);
    HeldIsQueued(sys, s);
    var n := |sys.strays|;
    assert sys'.strays[n].request.key == Key(sys.user, sender.job.path);
    forall k | 0 <= k < |sys'.strays|
      ensures StrayOk(sys', sys'.strays[k])
    {
      if k < n {
        assert StrayOk(sys, sys.strays[k]);
      }
    }
    AbandonKeepsSenders(sys, s);
    forall job | IsLatest(sys'.history, job)
      ensures Settled(sys', job)
    {
      assert Settled(sys, job);
    }
  }

  lemma AbandonKeepsSenders(sys: System, s: nat)
    requires SendersOk(sys)
    requires s < |sys.senders| && sys.senders[s].Busy? && AtServer(sys.senders[s].stage)
    ensures SendersOk(Abandoned(sys, sys.senders[s]))
  {
    hide StageOk;
    var sys' := Abandoned(sys, sys.senders[s]);
    forall t | 0 <= t < |sys'.senders| && sys'.senders[t].Busy?
      ensures SenderOk(sys', t)
    {
      assert SenderOk(sys, t);
      assert UndisturbedOk(sys, t) ==> UndisturbedOk(sys', t);
    }
    forall token | token in sys'.svc
      ensures SenderGuards(sys', token) || StrayGuards(sys', token)
    {
      assert SenderGuards(sys, token) ==> SenderGuards(sys', token);
      if StrayGuards(sys, token) {
        var k :| 0 <= k < |sys.strays| && (sys.strays[k].phase.Guarding? || sys.strays[k].phase.Performed?)
              && token == Token(sys.user, sys.strays[k].request.key.path);
        assert sys'.strays[k] == sys.strays[k];
      }
    }
  }

  lemma {:induction false} BreakKeepsInvariant(sys: System, store0: Store, s: nat)
    requires Invariant(sys, store0)
    requires s < |sys.senders| && sys.senders[s].Busy? && AtServer(sys.senders[s].stage)
    ensures Invariant(Moved(sys, s, BreakConnection), store0)
  {
    hide Invariant, HoldsGuard, Answer;
    AbandonKeepsInvariant(sys, store0, s);
    FailureKeepsInvariant(Abandoned(sys, sys.senders[s]), store0, s, sys.senders[s].stage.message);
  }

  /** The client never hears of its request. */
  lemma {:induction false} LossKeepsInvariant(sys: System, store0: Store, s: nat)
    requires Invariant(sys, store0)
    requires s < |sys.senders| && sys.senders[s].Busy?
    requires sys.senders[s].stage.Sent? || sys.senders[s].stage.Answered?
    ensures Invariant(Answer(sys, s, sys.senders[s].stage.message, false), store0)
  {
    hide Inv, HoldsGuard, Answer, SendersOk;
    var sender := sys.senders[s];
    SenderIsOk(sys, s);
    if sender.job.path !in sys.disturbed {
      assert UndisturbedOk(sys, s);
      SegmentsAreUploads(CellOf(sys, sender.job.path), sender, IsLatest(sys.history, sender.job),
                         sender.job.path in sys.dirty);
    }
    AwayFromGuard(sender);
    FailureKeepsInvariant(sys, store0, s, sender.stage.message);
  }

  lemma AwayFromGuard(sender: Sender)
    requires sender.Busy? && (sender.stage.Sent? || sender.stage.Answered?)
    ensures !HoldsGuard(sender)
  {}

  lemma SegmentsAreUploads(cell: Cell, sender: Sender, latest: bool, dirty: bool)
    requires sender.Busy? && (sender.stage.Sent? || sender.stage.Answered?)
    requires StageOk(cell, sender, latest, dirty)
    ensures sender.stage.message.SegmentMessage? ==> sender.job.command.UploadCommand?
  {}

  // ---------- stray requests ----------

  /** Whatever a stray request does is confined to its disturbed path. */
  lemma {:induction false} RunOnKeepsInvariant(sys: System, store0: Store, k: nat)
    requires Invariant(sys, store0)
    requires k < |sys.strays| && !sys.strays[k].phase.Over?
    ensures Invariant(RanOn(sys, k), store0)
  {
    hide Inv, StageOk, Holds, SendersOk, RanOn;
    var sys', path := RanOn(sys, k), sys.strays[k].request.key.path;
    assert StrayOk(sys, sys.strays[k]);
    RunOnForm(sys, k);
    forall j | 0 <= j < |sys'.strays|
      ensures StrayOk(sys', sys'.strays[j])
    {
      assert StrayOk(sys, sys.strays[j]);
    }
    RunOnKeepsSenders(sys, k);
    forall job | IsLatest(sys'.history, job)
      ensures Settled(sys', job)
    {
      assert Settled(sys, job);
      assert job.path != path ==> CellOf(sys', job.path) == CellOf(sys, job.path);
    }
  }

  lemma RunOnForm(sys: System, k: nat)
    requires k < |sys.strays|
    ensures var sys', stray := RanOn(sys, k), sys.strays[k];
      var token := Token(sys.user, stray.request.key.path);
      && |sys'.strays| == |sys.strays|
      && sys'.strays[k].request == stray.request
      && sys' == sys.(strays := sys.strays[k := sys'.strays[k]], svc := sys'.svc, store := sys'.store)
      && (forall key | key != stray.request.key :: At(sys'.store, key) == At(sys.store, key))
      && (forall other | other != token :: other in sys'.svc <==> other in sys.svc)
  {}

  lemma RunOnPhase(sys: System, k: nat)
    requires k < |sys.strays|
    ensures var sys', own := RanOn(sys, k), Token(sys.user, sys.strays[k].request.key.path);
      && (sys'.user, sys'.senders) == (sys.user, sys.senders)
      && |sys'.strays| == |sys.strays| && sys'.strays[k].request == sys.strays[k].request
      && (forall j | 0 <= j < |sys.strays| && j != k :: sys'.strays[j] == sys.strays[j])
      && (sys.strays[k].phase.Guarding? ==> sys'.strays[k].phase.Performed?)
      && (sys.strays[k].phase.Performed? ==> own !in sys'.svc)
      && (forall token | token in sys'.svc ::
            token in sys.svc || (token == own && sys'.strays[k].phase.Guarding?))
  {
    hide Handle;
  }

  lemma RunOnKeepsGuards(sys: System, k: nat, token: string)
    requires k < |sys.strays| && token in RanOn(sys, k).svc
    requires token in sys.svc ==> SenderGuards(sys, token) || StrayGuards(sys, token)
    ensures SenderGuards(RanOn(sys, k), token) || StrayGuards(RanOn(sys, k), token)
  {
    hide RanOn, Token, HoldsGuard;
    var sys' := RanOn(sys, k);
    RunOnPhase(sys, k);
    if token !in sys.svc {
      assert sys'.strays[k].phase.Guarding?;
    } else if StrayGuards(sys, token) {
      var j :| 0 <= j < |sys.strays| && (sys.strays[j].phase.Guarding? || sys.strays[j].phase.Performed?)
            && token == Token(sys.user, sys.strays[j].request.key.path);
      assert sys'.strays[j].phase.Guarding? || sys'.strays[j].phase.Performed?;
    } else {
      assert SenderGuards(sys', token);
    }
  }

  lemma RunOnKeepsSenders(sys: System, k: nat)
    requires SendersOk(sys) && StraysOk(sys)
    requires k < |sys.strays| && !sys.strays[k].phase.Over?
    ensures SendersOk(RanOn(sys, k))
  {
    hide StageOk, RanOn;
    var sys', path := RanOn(sys, k), sys.strays[k].request.key.path;
    assert StrayOk(sys, sys.strays[k]);
    RunOnForm(sys, k);
    forall t | 0 <= t < |sys'.senders| && sys'.senders[t].Busy?
      ensures SenderOk(sys', t)
    {
      assert SenderOk(sys, t);
      var other := sys.senders[t].job.path;
      if other !in sys.disturbed {
        assert UndisturbedOk(sys, t) && other != path;
        if Token(sys.user, other) == Token(sys.user, path) {
          TokenInjective(sys.user, other, path);
        }
        assert CellOf(sys', other) == CellOf(sys, other);
        assert UndisturbedOk(sys', t);
      }
    }
    forall token | token in sys'.svc
      ensures SenderGuards(sys', token) || StrayGuards(sys', token)
    {
      RunOnKeepsGuards(sys, k, token);
    }
  }

  // ---------- every step ----------

  lemma {:induction false} NextKeepsInvariant(sys: System, store0: Store, action: Action)
    requires Invariant(sys, store0) && Enabled(sys, action)
    ensures Invariant(Next(sys, action), store0)
  {
    hide Invariant, Inv, SegmentFits, Moved, GiveBack, Answer, RanOn;
    match action
    case AddOp(path, meta, command) => AddKeepsInvariant(sys, store0, path, meta, command);
    case Take(s) => TakeKeepsInvariant(sys, store0, s);
    case Act(s, move) => MoveKeepsInvariant(sys, store0, s, move);
    case RunOn(k) => RunOnKeepsInvariant(sys, store0, k);
  }

  lemma {:induction false} MoveKeepsInvariant(sys: System, store0: Store, s: nat, move: Move)
    requires Invariant(sys, store0)
    requires s < |sys.senders| && sys.senders[s].Busy? && CanMove(sys.queue, sys.senders[s], move)
    ensures Invariant(Moved(sys, s, move), store0)
  {
    hide Invariant, Inv, SegmentFits, GiveBack, Answer;
    match move
    case TakeGuard => GuardMoveKeepsInvariant(sys, store0, s, move);
    case ReleaseGuard => GuardMoveKeepsInvariant(sys, store0, s, move);
    case Execute => ExecuteKeepsInvariant(sys, store0, s);
    case Receive =>
      if sys.senders[s].stage.ok {
        SuccessKeepsInvariant(sys, store0, s);
      } else {
        LossKeepsInvariant(sys, store0, s);
      }
    case LoseRequest => LossKeepsInvariant(sys, store0, s);
    case BreakConnection => BreakKeepsInvariant(sys, store0, s);
    case LoseResponse => LossKeepsInvariant(sys, store0, s);
    case Fail => GiveBackKeepsInvariant(sys, store0, s);
    case Complete => CompleteKeepsInvariant(sys, store0, s);
    case Skip => ClientMoveKeepsInvariant(sys, store0, s, move);
    case SendNothing => ClientMoveKeepsInvariant(sys, store0, s, move);
    case SendSegment(_) => ClientMoveKeepsInvariant(sys, store0, s, move);
    case SendRemove => ClientMoveKeepsInvariant(sys, store0, s, move);
    case NoticeAbort => ClientMoveKeepsInvariant(sys, store0, s, move);
    case Break => ClientMoveKeepsInvariant(sys, store0, s, move);
    case SendAbort => ClientMoveKeepsInvariant(sys, store0, s, move);
    case CheckGuard => ClientMoveKeepsInvariant(sys, store0, s, move);
  }

  /** The invariant holds in every reachable state. */
  lemma {:induction false} RunKeepsInvariant(sys: System, actions: seq<Action>)
    requires Init(sys) && Run(sys, actions).Some?
    ensures Invariant(Run(sys, actions).value, sys.store)
  {
    hide Invariant, Enabled, Next;
    if actions == [] {
      InitInvariant(sys);
    } else {
      RunKeepsInvariant(sys, actions[..|actions| - 1]);
      NextKeepsInvariant(Run(sys, actions[..|actions| - 1]).value, sys.store, actions[|actions| - 1]);
    }
  }
}
