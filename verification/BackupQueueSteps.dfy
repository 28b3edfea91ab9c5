/** Steps that change the queue keep the invariant: taking, giving back, completing and adding. */
module BackupQueueSteps {
  import opened ServerStore
  import opened QueueSpec
  import opened BackupSystem
  import opened BackupInvariant

  // ---------- the queue changes ----------

  /** A sender's operation, found by its id. */
  lemma HeldByIndex(q: Queue, job: Job)
    requires Inv(q) && QueuedInProcess(q.ops, job)
    ensures IndexOf(q.ops, job.id) < |q.ops|
    ensures var op := q.ops[IndexOf(q.ops, job.id)]; op.job == job && op.processing
    ensures Held(q, job.id)
  {
    var op :| op in q.ops && op.job == job && op.processing;
    var i :| 0 <= i < |q.ops| && q.ops[i] == op;
    var n := IndexOf(q.ops, job.id);
    SameIdSameOp(q.ops, q.ops[n], op);
  }

  /** Two queues with the same operations up to their flags. */
  ghost predicate SameJobs(a: seq<Op>, b: seq<Op>) {
    && (forall op | op in a :: Queued(b, op.job))
    && (forall op | op in b :: Queued(a, op.job))
  }

  lemma SetProcessingSameJobs(ops: seq<Op>, n: nat, processing: bool)
    requires IdsIncrease(ops) && n < |ops|
    ensures SameJobs(ops, SetProcessing(ops, n, processing))
    ensures forall job | job != ops[n].job ::
      QueuedInProcess(SetProcessing(ops, n, processing), job) <==> QueuedInProcess(ops, job)
    ensures processing ==> QueuedInProcess(SetProcessing(ops, n, processing), ops[n].job)
  {
    var ops' := SetProcessing(ops, n, processing);
    SetProcessingMembers(ops, n, processing);
    forall op | op in ops
      ensures Queued(ops', op.job)
    {
      assert (if op == ops[n] then ops[n].(processing := processing) else op) in ops';
    }
    forall op | op in ops'
      ensures Queued(ops, op.job)
    {
      assert (if op in ops then op else ops[n]) in ops;
    }
    forall job | job != ops[n].job
      ensures QueuedInProcess(ops', job) <==> QueuedInProcess(ops, job)
    {
      if QueuedInProcess(ops, job) {
        var op :| op in ops && op.job == job && op.processing;
        assert op in ops';
      }
    }
  }

  /** What does not depend on the flags survives a change of flags. */
  lemma SameJobsKeep(sys: System, store0: Store, queue: Queue, senders: seq<Sender>, disturbed: set<string>)
    requires Invariant(sys, store0) && Inv(queue) && SameJobs(sys.queue.ops, queue.ops)
    requires queue.idCounter == sys.queue.idCounter && disturbed <= sys.disturbed
    // only paths of queued operations are found undisturbed
    requires forall path | path in sys.disturbed && path !in disturbed :: !PathIdle(sys.queue.ops, path)
    requires var sys' := sys.(queue := queue, senders := senders, disturbed := disturbed);
      SendersOk(sys') && StraysOk(sys') && AllHeld(sys')
    ensures Invariant(sys.(queue := queue, senders := senders, disturbed := disturbed), store0)
  {
    hide SendersOk, StraysOk, AllHeld, Inv, Holds;
    var sys' := sys.(queue := queue, senders := senders, disturbed := disturbed);
    forall op | op in queue.ops
      ensures op.job in sys.history
      ensures forall job | job in sys.completed && job.path == op.job.path :: job.id < op.job.id
    {
      assert Queued(sys.queue.ops, op.job);
    }
    forall job | IsLatest(sys'.history, job)
      ensures Settled(sys', job)
    {
      assert Settled(sys, job);
      if Queued(sys.queue.ops, job) {
        var op :| op in sys.queue.ops && op.job == job;
        assert Queued(queue.ops, op.job);
      } else {
        forall op | op in queue.ops
          ensures op.job.path != job.path
        {
          assert Queued(sys.queue.ops, op.job);
        }
      }
    }
  }

  lemma {:induction false} TakeKeepsInvariant(sys: System, store0: Store, s: nat)
    requires Invariant(sys, store0) && Enabled(sys, Take(s))
    ensures Invariant(Next(sys, Take(s)), store0)
  {
    hide Inv, SendersOk, StraysOk, AllHeld;
    var n, sys' := FirstReady(sys.queue.ops, sys.queue.processingFiles), Next(sys, Take(s));
    GetKeepsInv(sys.queue);
    ReadyNotInProcess(sys.queue, n);
    SetProcessingSameJobs(sys.queue.ops, n, true);
    TakeKeepsSenders(sys, s);
    TakeKeepsStrays(sys, s);
    TakeKeepsHeld(sys, s);
    assert !PathIdle(sys.queue.ops, sys.queue.ops[n].job.path);
    SameJobsKeep(sys, store0, sys'.queue, sys'.senders, sys'.disturbed);
  }

  lemma TakeKeepsSenders(sys: System, s: nat)
    requires Inv(sys.queue) && HistoryOk(sys) && SendersOk(sys) && Enabled(sys, Take(s))
    ensures SendersOk(Next(sys, Take(s)))
  {
    hide Inv, StageOk, SendersOk;
    var n := FirstReady(sys.queue.ops, sys.queue.processingFiles);
    var op := sys.queue.ops[n];
    ReadyNotInProcess(sys.queue, n);
    SetProcessingSameJobs(sys.queue.ops, n, true);
    FreshSenderOk(CellOf(sys, op.job.path), op.job, IsLatest(sys.history, op.job), op.job.path in sys.dirty);
    forall t | 0 <= t < |sys.senders| && sys.senders[t].Busy?
      ensures sys.senders[t].job.path != op.job.path && sys.senders[t].job.id != op.job.id
    {
      SenderIsOk(sys, t);
      HeldDiffers(sys.queue, n, sys.senders[t].job);
    }
    JoiningKeepsSenders(sys, s, Next(sys, Take(s)), op.job);
  }

  lemma TakeKeepsStrays(sys: System, s: nat)
    requires StraysOk(sys) && Enabled(sys, Take(s))
    ensures StraysOk(Next(sys, Take(s)))
  {
    var sys' := Next(sys, Take(s));
    forall k | 0 <= k < |sys'.strays|
      ensures StrayOk(sys', sys'.strays[k])
    {
      assert StrayOk(sys, sys.strays[k]);
    }
  }

  lemma TakeKeepsHeld(sys: System, s: nat)
    requires Inv(sys.queue) && AllHeld(sys) && Enabled(sys, Take(s))
    ensures AllHeld(Next(sys, Take(s)))
  {
    hide Inv;
    var n, sys' := FirstReady(sys.queue.ops, sys.queue.processingFiles), Next(sys, Take(s));
    ReadyNotInProcess(sys.queue, n);
    SetProcessingMembers(sys.queue.ops, n, true);
    forall op | op in sys'.queue.ops && op.processing
      ensures HeldBySome(sys'.senders, op.job)
    {
      if op in sys.queue.ops {
        var t :| 0 <= t < |sys.senders| && sys.senders[t].Busy? && sys.senders[t].job == op.job;
        assert sys'.senders[t].Busy? && sys'.senders[t].job == op.job;
      } else {
        assert sys'.senders[s].Busy? && sys'.senders[s].job == op.job;
      }
    }
  }

  lemma SenderIsOk(sys: System, s: nat)
    requires SendersOk(sys) && s < |sys.senders| && sys.senders[s].Busy?
    ensures SenderOk(sys, s)
  {}

  /** The other senders do not notice that idle sender `s` takes an operation, nor that its path is calm again. */
  lemma JoiningKeepsSenders(sys: System, s: nat, sys': System, job: Job)
    requires SendersOk(sys)
    requires s < |sys.senders| && sys.senders[s].Idle?
    requires sys'.senders == sys.senders[s := Busy(job, [], 0, Local)]
    requires (sys'.user, sys'.svc, sys'.store, sys'.history, sys'.dirty, sys'.strays, sys'.contended)
          == (sys.user, sys.svc, sys.store, sys.history, sys.dirty, sys.strays, sys.contended)
    requires forall path | path != job.path :: path in sys'.disturbed <==> path in sys.disturbed
    requires forall other | QueuedInProcess(sys.queue.ops, other) :: QueuedInProcess(sys'.queue.ops, other)
    requires QueuedInProcess(sys'.queue.ops, job)
    requires StageOk(CellOf(sys, job.path), sys'.senders[s], IsLatest(sys.history, job), job.path in sys.dirty)
    requires forall t | 0 <= t < |sys.senders| && sys.senders[t].Busy? ::
      sys.senders[t].job.path != job.path && sys.senders[t].job.id != job.id
    ensures SendersOk(sys')
  {
    hide StageOk;
    forall t | 0 <= t < |sys'.senders| && sys'.senders[t].Busy?
      ensures SenderOk(sys', t)
    {
      if t != s {
        assert SenderOk(sys, t);
        assert UndisturbedOk(sys, t) ==> UndisturbedOk(sys', t);
      }
    }
    GuardsStay(sys, s, sys');
  }

  /** Guards outlive changes of a sender that holds none. */
  lemma GuardsStay(sys: System, s: nat, sys': System)
    requires s < |sys.senders| && !HoldsGuard(sys.senders[s])
    requires |sys'.senders| == |sys.senders| && sys'.user == sys.user && sys'.svc == sys.svc
    requires sys'.strays == sys.strays
    requires forall t | 0 <= t < |sys.senders| && t != s :: sys'.senders[t] == sys.senders[t]
    requires forall token | token in sys.svc :: SenderGuards(sys, token) || StrayGuards(sys, token)
    ensures forall token | token in sys'.svc :: SenderGuards(sys', token) || StrayGuards(sys', token)
  {
    forall token | token in sys'.svc
      ensures SenderGuards(sys', token) || StrayGuards(sys', token)
    {
      if StrayGuards(sys, token) {
        assert StrayGuards(sys', token);
      } else {
        assert SenderGuards(sys, token);
        var t :| 0 <= t < |sys.senders| && HoldsGuard(sys.senders[t])
              && token == Token(sys.user, sys.senders[t].job.path);
        assert HoldsGuard(sys'.senders[t]);
      }
    }
  }

  lemma ReadyNotInProcess(q: Queue, n: nat)
    requires Inv(q) && n == FirstReady(q.ops, q.processingFiles) < |q.ops|
    ensures IdsIncrease(q.ops) && !q.ops[n].processing && !InProcess(q.ops, q.ops[n].job.path)
  {}

  lemma FreshSenderOk(cell: Cell, job: Job, latest: bool, dirty: bool)
    ensures StageOk(cell, Busy(job, [], 0, Local), latest, dirty)
  {}

  lemma HeldDiffers(q: Queue, n: nat, job: Job)
    requires IdsIncrease(q.ops) && n < |q.ops| && QueuedInProcess(q.ops, job)
    requires !q.ops[n].processing && !InProcess(q.ops, q.ops[n].job.path)
    ensures q.ops[n].job.path != job.path && q.ops[n].job.id != job.id
  {
    var op :| op in q.ops && op.job == job && op.processing;
    if q.ops[n].job.id == job.id {
      SameIdSameOp(q.ops, q.ops[n], op);
    }
  }

  lemma InvOrdersIds(q: Queue)
    requires Inv(q)
    ensures IdsIncrease(q.ops)
  {}

  lemma {:induction false} GiveBackKeepsInvariant(sys: System, store0: Store, s: nat)
    requires Invariant(sys, store0)
    requires s < |sys.senders| && sys.senders[s].Busy? && !HoldsGuard(sys.senders[s])
    ensures Invariant(GiveBack(sys, s), store0)
  {
    hide Inv, StageOk;
    var job, sys' := sys.senders[s].job, GiveBack(sys, s);
    assert SenderOk(sys, s);
    HeldByIndex(sys.queue, job);
    FreeKeepsInv(sys.queue, job.id);
    var n := IndexOf(sys.queue.ops, job.id);
    InvOrdersIds(sys.queue);
    SetProcessingSameJobs(sys.queue.ops, n, false);
    LeavingKeepsSenders(sys, s, sys');
    LeavingKeepsStrays(sys, sys');
    SetProcessingMembers(sys.queue.ops, n, false);
    LeavingKeepsHeld(sys, s, sys');
    SameJobsKeep(sys, store0, sys'.queue, sys'.senders, sys.disturbed);
  }

  lemma LeavingKeepsStrays(sys: System, sys': System)
    requires StraysOk(sys)
    requires (sys'.user, sys'.history, sys'.strays, sys'.disturbed)
          == (sys.user, sys.history, sys.strays, sys.disturbed)
    ensures StraysOk(sys')
  {
    forall k | 0 <= k < |sys'.strays|
      ensures StrayOk(sys', sys'.strays[k])
    {
      assert StrayOk(sys, sys.strays[k]);
    }
  }

  /** What is still in process when sender `s` has let go of its operation is held by others. */
  lemma LeavingKeepsHeld(sys: System, s: nat, sys': System)
    requires AllHeld(sys)
    requires s < |sys.senders| && sys.senders[s].Busy?
    requires sys'.senders == sys.senders[s := Idle]
    requires forall op | op in sys'.queue.ops && op.processing ::
      op in sys.queue.ops && op.job.id != sys.senders[s].job.id
    ensures AllHeld(sys')
  {
    forall op | op in sys'.queue.ops && op.processing
      ensures HeldBySome(sys'.senders, op.job)
    {
      var t :| 0 <= t < |sys.senders| && sys.senders[t].Busy? && sys.senders[t].job == op.job;
      assert sys'.senders[t].Busy? && sys'.senders[t].job == op.job;
    }
  }

  /** The other senders do not notice that sender `s` lets go of its operation. */
  lemma LeavingKeepsSenders(sys: System, s: nat, sys': System)
    requires SendersOk(sys)
    requires s < |sys.senders| && sys.senders[s].Busy? && !HoldsGuard(sys.senders[s])
    requires sys'.senders == sys.senders[s := Idle]
    requires (sys'.user, sys'.svc, sys'.store, sys'.history, sys'.dirty, sys'.strays, sys'.disturbed, sys'.contended)
          == (sys.user, sys.svc, sys.store, sys.history, sys.dirty, sys.strays, sys.disturbed, sys.contended)
    requires forall job: Job | job.id != sys.senders[s].job.id && QueuedInProcess(sys.queue.ops, job) ::
      QueuedInProcess(sys'.queue.ops, job)
    ensures SendersOk(sys')
  {
    hide StageOk;
    forall t | 0 <= t < |sys'.senders| && sys'.senders[t].Busy?
      ensures SenderOk(sys', t)
    {
      assert SenderOk(sys, t);
      assert sys.senders[t].job.id != sys.senders[s].job.id;
      assert UndisturbedOk(sys, t) ==> UndisturbedOk(sys', t);
    }
    GuardsStay(sys, s, sys');
  }

  // ---------- complete ----------

  lemma CompleteKeepsInvariant(sys: System, store0: Store, s: nat)
    requires Invariant(sys, store0)
    requires s < |sys.senders| && sys.senders[s].Busy? && sys.senders[s].stage.Finished?
    ensures Invariant(Moved(sys, s, Complete), store0)
  {
    hide Inv, StageOk, Holds, SendersOk, StraysOk, AllHeld, AllSettled;
    var job, sys' := sys.senders[s].job, Moved(sys, s, Complete);
    HeldIsQueued(sys, s);
    HeldByIndex(sys.queue, job);
    RemoveKeepsInv(sys.queue, job.id);
    RemovedJobs(sys.queue, job);
    LeavingKeepsSenders(sys, s, sys');
    LeavingKeepsStrays(sys, sys');
    LeavingKeepsHeld(sys, s, sys');
    CompleteKeepsSettled(sys, s);
  }

  /** Removing an operation in process, which is the earliest on its path. */
  lemma RemovedJobs(q: Queue, job: Job)
    requires Inv(q) && QueuedInProcess(q.ops, job)
    ensures forall op | op in Remove(q, job.id).ops :: op in q.ops && op.job.id != job.id
    ensures forall op | op in q.ops && op.job.id != job.id :: op in Remove(q, job.id).ops
    ensures forall op | op in q.ops && op.job.path == job.path && op.job != job :: job.id < op.job.id
    ensures forall other: Job | other.id != job.id && QueuedInProcess(q.ops, other) ::
      QueuedInProcess(Remove(q, job.id).ops, other)
  {
    WithoutMembers(q.ops, job.id);
    var held :| held in q.ops && held.job == job && held.processing;
    forall op | op in q.ops && op.job.path == job.path && op.job != job
      ensures job.id < op.job.id
    {
      if op.job.id == job.id {
        SameIdSameOp(q.ops, op, held);
      }
      assert !Supersedes(held, op);
    }
    forall other: Job | other.id != job.id && QueuedInProcess(q.ops, other)
      ensures QueuedInProcess(Remove(q, job.id).ops, other)
    {
      var op :| op in q.ops && op.job == other && op.processing;
      assert op in Remove(q, job.id).ops;
    }
  }

  lemma CompleteKeepsSettled(sys: System, s: nat)
    requires Inv(sys.queue) && HistoryOk(sys) && SendersOk(sys) && AllSettled(sys)
    requires s < |sys.senders| && sys.senders[s].Busy? && sys.senders[s].stage.Finished?
    ensures AllSettled(Moved(sys, s, Complete))
  {
    hide Inv, Holds;
    var job, sys' := sys.senders[s].job, Moved(sys, s, Complete);
    assert SenderOk(sys, s);
    RemovedJobs(sys.queue, job);
    forall latest | IsLatest(sys'.history, latest)
      ensures Settled(sys', latest)
    {
      assert Settled(sys, latest);
      if latest == job {
        // nothing earlier or later is queued on this path
        forall op | op in sys'.queue.ops
          ensures op.job.path != job.path
        {
          assert op.job in sys.history;
        }
        FinishedMeansDone(sys, s);
      } else if Queued(sys.queue.ops, latest) {
        var op :| op in sys.queue.ops && op.job == latest;
        assert op in sys'.queue.ops;
      }
    }
  }

  lemma FinishedMeansDone(sys: System, s: nat)
    requires s < |sys.senders| && sys.senders[s].Busy? && sys.senders[s].stage.Finished?
    requires SenderOk(sys, s) && IsLatest(sys.history, sys.senders[s].job)
    ensures sys.senders[s].job.path in Unclean(sys)
         || Holds(CellOf(sys, sys.senders[s].job.path), sys.senders[s].job)
  {}

  // ---------- add ----------

  lemma AddKeepsInvariant(sys: System, store0: Store, path: string, meta: Metadata, command: Command)
    requires Invariant(sys, store0) && Enabled(sys, AddOp(path, meta, command))
    ensures Invariant(Next(sys, AddOp(path, meta, command)), store0)
  {
    hide Inv, StageOk, Holds;
    var sys' := Next(sys, AddOp(path, meta, command));
    var job := Job(sys.queue.idCounter, path, command, meta);
    AddKeepsInv(sys.queue, path, meta, command);
    AddedJobs(sys.queue, path, meta, command);
    assert sys'.history[|sys.history|] == job;
    forall older | older in sys.history
      ensures older in sys'.history && older.id < job.id
    {
      var i :| 0 <= i < |sys.history| && sys.history[i] == older;
      assert sys'.history[i] == older;
    }
    forall latest | IsLatest(sys'.history, latest)
      ensures Settled(sys', latest)
    {
      if latest != job {
        assert latest in sys.history;
        assert IsLatest(sys.history, latest) && Settled(sys, latest);
      }
    }
    AddKeepsSenders(sys, path, meta, command);
    AddKeepsStrays(sys, path, meta, command);
    AddKeepsHeld(sys, path, meta, command);
    forall key: Key | key.user != sys.user || !Mentioned(sys'.history, key.path)
      ensures At(sys.store, key) == At(store0, key)
    {
      if Mentioned(sys.history, key.path) {
        var j :| j in sys.history && j.path == key.path;
        assert j in sys'.history;
      }
    }
  }

  lemma AddedJobs(q: Queue, path: string, meta: Metadata, command: Command)
    requires Inv(q)
    ensures var ops' := Add(q, path, meta, command).ops;
      var job := Job(q.idCounter, path, command, meta);
      && Queued(ops', job)
      && (forall op | op in ops' :: op.job == job || Queued(q.ops, op.job))
      && (forall op | op in q.ops && op.job.path != path :: op in ops')
      && (forall other | QueuedInProcess(q.ops, other) :: QueuedInProcess(ops', other))
  {
    var ops' := Add(q, path, meta, command).ops;
    CoalesceMembers(q.ops, path);
    assert ops'[|ops'| - 1].job == Job(q.idCounter, path, command, meta);
    forall op | op in ops' && op.job != Job(q.idCounter, path, command, meta)
      ensures Queued(q.ops, op.job)
    {
      assert op in q.ops || op.(abort := false) in q.ops;
    }
    forall other | QueuedInProcess(q.ops, other)
      ensures QueuedInProcess(ops', other)
    {
      var op :| op in q.ops && op.job == other && op.processing;
      assert (if other.path == path then op.(abort := true) else op) in ops';
    }
  }

  lemma AddKeepsStrays(sys: System, path: string, meta: Metadata, command: Command)
    requires StraysOk(sys) && Enabled(sys, AddOp(path, meta, command))
    ensures StraysOk(Next(sys, AddOp(path, meta, command)))
  {
    var sys' := Next(sys, AddOp(path, meta, command));
    forall k | 0 <= k < |sys'.strays|
      ensures StrayOk(sys', sys'.strays[k])
    {
      assert StrayOk(sys, sys.strays[k]);
      var job :| job in sys.history && job.path == sys.strays[k].request.key.path;
      assert job in sys'.history;
    }
  }

  lemma AddKeepsHeld(sys: System, path: string, meta: Metadata, command: Command)
    requires Inv(sys.queue) && AllHeld(sys) && Enabled(sys, AddOp(path, meta, command))
    ensures AllHeld(Next(sys, AddOp(path, meta, command)))
  {
    CoalesceMembers(sys.queue.ops, path);
  }

  lemma AddKeepsSenders(sys: System, path: string, meta: Metadata, command: Command)
    requires Inv(sys.queue) && HistoryOk(sys) && SendersOk(sys) && Enabled(sys, AddOp(path, meta, command))
    ensures SendersOk(Next(sys, AddOp(path, meta, command)))
  {
    hide Inv;
    var sys' := Next(sys, AddOp(path, meta, command));
    AddedJobs(sys.queue, path, meta, command);
    forall t | 0 <= t < |sys'.senders| && sys'.senders[t].Busy?
      ensures SenderOk(sys', t)
    {
      assert SenderOk(sys, t);
      var job := sys.senders[t].job;
      if IsLatest(sys'.history, job) {
        assert job in sys.history by {
          var op :| op in sys.queue.ops && op.job == job;
        }
        assert IsLatest(sys.history, job);
      }
      if job.path !in sys.disturbed {
        assert UndisturbedOk(sys, t);
        StageOkWeakens(CellOf(sys, job.path), sys.senders[t], IsLatest(sys.history, job),
                       IsLatest(sys'.history, job), job.path in sys.dirty);
      }
    }
    forall token | token in sys'.svc
      ensures SenderGuards(sys', token) || StrayGuards(sys', token)
    {
      assert SenderGuards(sys, token) ==> SenderGuards(sys', token);
      assert StrayGuards(sys, token) ==> StrayGuards(sys', token);
    }
  }

  lemma StageOkWeakens(cell: Cell, sender: Sender, latest: bool, latest': bool, dirty: bool)
    requires sender.Busy? && StageOk(cell, sender, latest, dirty) && (latest' ==> latest)
    ensures StageOk(cell, sender, latest', dirty)
  {}
}
