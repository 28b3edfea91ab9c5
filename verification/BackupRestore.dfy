/** Restoring what the whole system has uploaded. */
module BackupRestore {
  import opened Common
  import opened Crc32
  import opened Segments
  import opened ServerStore
  import opened UploadProtocol
  import opened QueueSpec
  import opened BackupSystem
  import opened BackupInvariant
  import opened BackupQueueSteps
  import opened BackupSteps
  import opened BackupTheorems

  // ---------- any files ----------

  /** Where the effect of an upload is on the server, a restore gives a file that fits it, or is too long. */
  lemma HeldFileIsRestored(store: Store, user: string, job: Job)
    requires job.command.UploadCommand? && Countable(job.meta.size)
    requires Holds(At(store, Key(user, job.path)), job)
    ensures var file := At(store, Key(user, job.path)).file.value;
      && |file| == job.meta.size && Checksum(file) == job.meta.checksum
      && ProbeAndRestore(store, user, job.path) == if |file| <= INT_MAX then Restored(file) else Failed
  {
    hide Checksum;
    var cell := At(store, Key(user, job.path));
    var file, size := cell.file.value, job.meta.size;
    CoversFileIff(size);
    CountIsExactIff(size);
    EmptyChecksum();
    assert |file| == 0 ==> file == [];
    ProbeAt(store, user, job.path);
    CollectSlices(cell, file, Requests(size));
    OffsetsAcceptedIff(size);
  }

  /**
   After any run: on an idle path that is not unclean and whose newest operation is an upload of less than
   2 GiB, probe and restore give a file of the size and checksum that were to be uploaded.
   */
  lemma {:induction false} NewestIsRestored(sys: System, actions: seq<Action>, path: string)
    requires Init(sys) && Run(sys, actions).Some?
    requires PathIdle(Run(sys, actions).value.queue.ops, path) && path !in Unclean(Run(sys, actions).value)
    requires Newest(Run(sys, actions).value.history, path).Some?
    ensures var job, result := Newest(Run(sys, actions).value.history, path).value,
                               ProbeAndRestore(Run(sys, actions).value.store, sys.user, path);
      job.command.UploadCommand? && Countable(job.meta.size) ==>
        if job.meta.size <= INT_MAX
        then result.Restored? && |result.file| == job.meta.size && Checksum(result.file) == job.meta.checksum
        else result == Failed
  {
    hide Holds, Run, Init, Newest, PathIdle;
    var sys' := Run(sys, actions).value;
    var job := Newest(sys'.history, path).value;
    NewestHolds(sys, actions, path);
    NewestIsOnPath(sys'.history, path);
    RunKeepsUser(sys, actions);
    if job.command.UploadCommand? && Countable(job.meta.size) {
      HeldFileIsRestored(sys'.store, sys.user, job);
    }
  }

  // ---------- a file that stands still ----------

  /** A segment that is sent for `path` is that of `file`. */
  predicate SendsFrom(sys: System, action: Action, path: string, file: seq<Byte>) {
    action.Act? && action.move.SendSegment? && action.s < |sys.senders| ==>
      var sender := sys.senders[action.s];
      sender.Busy? && sender.job.path == path ==>
        && |file| == sender.job.meta.size && sender.next < Requests(|file|)
        && action.move.data == SegmentOf(file, sender.next)
  }

  /** Whenever a sender read from the local file at `path` during the run, it found `file`. */
  ghost predicate StandsStill(sys: System, actions: seq<Action>, path: string, file: seq<Byte>) {
    actions != [] ==>
      var init := actions[..|actions| - 1];
      && StandsStill(sys, init, path, file)
      && (Run(sys, init).Some? ==> SendsFrom(Run(sys, init).value, actions[|actions| - 1], path, file))
  }

  /** The data of the sender's outstanding request. */
  function DataOf(stage: Stage): Option<seq<Byte>> {
    if (AtServer(stage) || stage.Answered?) && stage.message.SegmentMessage? then Some(stage.message.data) else None
  }

  /** What the sender has sent so far is from the file. */
  ghost predicate SenderFrom(sender: Sender, path: string, file: seq<Byte>) {
    sender.Busy? && sender.job.path == path ==>
      && (sender.next == 0 ==> sender.sent == [])
      && (sender.next > 0 || DataOf(sender.stage).Some? ==>
            && |file| == sender.job.meta.size && sender.next < Requests(|file|)
            && sender.sent == SentBytes(file, sender.next))
      && (DataOf(sender.stage).Some? ==> DataOf(sender.stage) == Some(SegmentOf(file, sender.next)))
  }

  ghost predicate SendersFrom(sys: System, path: string, file: seq<Byte>) {
    forall s | 0 <= s < |sys.senders| :: SenderFrom(sys.senders[s], path, file)
  }

  ghost predicate FinishedBySome(senders: seq<Sender>, job: Job) {
    exists s :: 0 <= s < |senders| && senders[s].Busy? && senders[s].stage.Finished? && senders[s].job == job
  }

  /** The newest operation on its path is an upload that has ended well. */
  ghost predicate EndedWell(sys: System, job: Job) {
    && IsLatest(sys.history, job) && job.command.UploadCommand?
    && job.path !in Unclean(sys)
    && (PathIdle(sys.queue.ops, job.path) || FinishedBySome(sys.senders, job))
  }

  /** Then the server has the file. */
  ghost predicate FileKept(sys: System, path: string, file: seq<Byte>) {
    forall job | EndedWell(sys, job) && job.path == path :: HasFile(sys, job, file)
  }

  ghost predicate HasFile(sys: System, job: Job, file: seq<Byte>) {
    |file| == job.meta.size && CellOf(sys, job.path).file == Some(UploadedPart(file))
  }

  // ---------- senders ----------

  lemma AnswerKeepsSenderFrom(sys: System, s: nat, message: Message, ok: bool, path: string, file: seq<Byte>)
    requires s < |sys.senders| && sys.senders[s].Busy? && SenderFrom(sys.senders[s], path, file)
    requires AtServer(sys.senders[s].stage) || sys.senders[s].stage.Answered?
    requires message == sys.senders[s].stage.message
    ensures SenderFrom(Answer(sys, s, message, ok).senders[s], path, file)
  {
    hide SentBytes, SegmentOf, Requests;
    var sender := sys.senders[s];
    if sender.job.path == path && message.SegmentMessage? {
      SentBytesGrow(file, sender.next);
    }
  }

  /** Moves that end with a response, or with the loss of one. */
  predicate IsAnswered(move: Move) {
    move.Receive? || move.LoseRequest? || move.BreakConnection? || move.LoseResponse?
  }

  lemma AnsweredForm(sys: System, s: nat, move: Move) returns (base: System, ok: bool)
    requires s < |sys.senders| && sys.senders[s].Busy? && CanMove(sys.queue, sys.senders[s], move)
    requires IsAnswered(move)
    ensures AtServer(sys.senders[s].stage) || sys.senders[s].stage.Answered?
    ensures base.senders == sys.senders
    ensures base == sys || (move.BreakConnection? && base == Abandoned(sys, sys.senders[s]))
    ensures Moved(sys, s, move) == Answer(base, s, sys.senders[s].stage.message, ok)
    ensures ok <==> move.Receive? && sys.senders[s].stage.ok
  {
    hide Answer;
    base := if move.BreakConnection? then Abandoned(sys, sys.senders[s]) else sys;
    ok := move.Receive? && sys.senders[s].stage.ok;
  }

  lemma MoveKeepsSenderFrom(sys: System, s: nat, move: Move, path: string, file: seq<Byte>)
    requires s < |sys.senders| && sys.senders[s].Busy? && CanMove(sys.queue, sys.senders[s], move)
    requires SenderFrom(sys.senders[s], path, file) && SendsFrom(sys, Act(s, move), path, file)
    ensures |Moved(sys, s, move).senders| == |sys.senders|
    ensures SenderFrom(Moved(sys, s, move).senders[s], path, file)
    ensures forall t | 0 <= t < |sys.senders| && t != s :: Moved(sys, s, move).senders[t] == sys.senders[t]
  {
    if IsAnswered(move) {
      hide Moved, Answer, SenderFrom;
      var base, ok := AnsweredForm(sys, s, move);
      AnswerForm(base, s, sys.senders[s].stage.message, ok);
      AnswerKeepsSenderFrom(base, s, sys.senders[s].stage.message, ok, path, file);
    } else {
      hide Moved, SentBytes, SegmentOf, Requests, DataOf, CanMove;
      OtherMoveForm(sys, s, move);
    }
  }

  lemma OtherMoveForm(sys: System, s: nat, move: Move)
    requires s < |sys.senders| && sys.senders[s].Busy? && CanMove(sys.queue, sys.senders[s], move)
    requires !IsAnswered(move)
    ensures |Moved(sys, s, move).senders| == |sys.senders|
    ensures forall t | 0 <= t < |sys.senders| && t != s :: Moved(sys, s, move).senders[t] == sys.senders[t]
    ensures var sender, sender' := sys.senders[s], Moved(sys, s, move).senders[s];
      sender'.Busy? ==>
        && (sender'.job, sender'.sent, sender'.next) == (sender.job, sender.sent, sender.next)
        && (DataOf(sender'.stage).Some? ==>
              DataOf(sender'.stage) == if move.SendSegment? then Some(move.data) else DataOf(sender.stage))
  {
    hide SegmentLength, Requests, AbortFlag, SegmentFits, Handle, QueueSpec.Remove, QueueSpec.Free;
  }

  lemma AnswerForm(sys: System, s: nat, message: Message, ok: bool)
    requires s < |sys.senders| && sys.senders[s].Busy?
    ensures |Answer(sys, s, message, ok).senders| == |sys.senders|
    ensures forall t | 0 <= t < |sys.senders| && t != s :: Answer(sys, s, message, ok).senders[t] == sys.senders[t]
  {
    hide Requests, QueueSpec.Free;
  }

  // ---------- the file on the server ----------

  lemma FileKeptWhere(sys: System, sys': System, path: string, file: seq<Byte>)
    requires FileKept(sys, path, file)
    requires forall job | EndedWell(sys', job) && job.path == path ::
      HasFile(sys', job, file) || (EndedWell(sys, job) && CellOf(sys', path) == CellOf(sys, path))
    ensures FileKept(sys', path, file)
  {
    hide EndedWell;
    forall job | EndedWell(sys', job) && job.path == path
      ensures HasFile(sys', job, file)
    {
      assert HasFile(sys', job, file) || HasFile(sys, job, file);
    }
  }

  lemma AddKeepsFile(sys: System, action: Action, path: string, file: seq<Byte>)
    requires Inv(sys.queue) && HistoryOk(sys) && SendersOk(sys) && FileKept(sys, path, file)
    requires action.AddOp? && Enabled(sys, action)
    ensures FileKept(Next(sys, action), path, file)
  {
    hide Inv, SendersOk, FileKept, HasFile;
    var sys' := Next(sys, action);
    forall job | EndedWell(sys', job) && job.path == path
      ensures EndedWell(sys, job)
    {
      AddEndsNothing(sys, action, job);
    }
    FileKeptWhere(sys, sys', path, file);
  }

  lemma AddEndsNothing(sys: System, action: Action, job: Job)
    requires Inv(sys.queue) && HistoryOk(sys) && SendersOk(sys)
    requires action.AddOp? && Enabled(sys, action)
    requires EndedWell(Next(sys, action), job)
    ensures EndedWell(sys, job)
  {
    hide Inv, SendersOk;
    var sys' := Next(sys, action);
    var added := Job(sys.queue.idCounter, action.path, action.command, action.meta);
    AddedJobs(sys.queue, action.path, action.meta, action.command);
    assert sys'.history[|sys.history|] == added;
    forall older | older in sys.history
      ensures older in sys'.history && older.id < added.id
    {
      var i :| 0 <= i < |sys.history| && sys.history[i] == older;
      assert sys'.history[i] == older;
    }
    if FinishedBySome(sys'.senders, added) {
      var s :| 0 <= s < |sys.senders| && sys.senders[s].Busy? && sys.senders[s].job == added;
      HeldIsQueued(sys, s);
    }
    assert job != added;
    assert job in sys.history && job.path != action.path;
  }

  lemma TakeKeepsFile(sys: System, s: nat, path: string, file: seq<Byte>)
    requires Inv(sys.queue) && SendersOk(sys) && FileKept(sys, path, file) && Enabled(sys, Take(s))
    ensures FileKept(Next(sys, Take(s)), path, file)
  {
    hide Inv, SendersOk, FileKept, HasFile;
    var sys' := Next(sys, Take(s));
    forall job | EndedWell(sys', job) && job.path == path
      ensures EndedWell(sys, job)
    {
      TakeEndsNothing(sys, s, job);
    }
    FileKeptWhere(sys, sys', path, file);
  }

  lemma TakeEndsNothing(sys: System, s: nat, job: Job)
    requires Inv(sys.queue) && SendersOk(sys) && Enabled(sys, Take(s))
    requires EndedWell(Next(sys, Take(s)), job)
    ensures EndedWell(sys, job)
  {
    hide Inv, SendersOk, IsLatest;
    var n, sys' := FirstReady(sys.queue.ops, sys.queue.processingFiles), Next(sys, Take(s));
    var op := sys.queue.ops[n];
    ReadyNotInProcess(sys.queue, n);
    SetProcessingSameJobs(sys.queue.ops, n, true);
    SameJobsSamePaths(sys.queue.ops, sys'.queue.ops, job.path);
    SameJobsSamePaths(sys.queue.ops, sys'.queue.ops, op.job.path);
    assert !PathIdle(sys.queue.ops, op.job.path);
    if FinishedBySome(sys'.senders, job) {
      var t :| 0 <= t < |sys'.senders| && sys'.senders[t].Busy? && sys'.senders[t].stage.Finished?
            && sys'.senders[t].job == job;
      assert sys.senders[t] == sys'.senders[t];
      SenderIsOk(sys, t);
      HeldDiffers(sys.queue, n, job);
    }
  }

  lemma SameJobsSamePaths(ops: seq<Op>, ops': seq<Op>, path: string)
    requires SameJobs(ops, ops')
    ensures PathIdle(ops, path) <==> PathIdle(ops', path)
  {}

  lemma RunOnKeepsFile(sys: System, k: nat, path: string, file: seq<Byte>)
    requires StraysOk(sys) && FileKept(sys, path, file)
    requires k < |sys.strays| && !sys.strays[k].phase.Over?
    ensures FileKept(RanOn(sys, k), path, file)
  {
    hide FileKept, HasFile, RanOn, IsLatest, PathIdle, FinishedBySome;
    var sys' := RanOn(sys, k);
    assert StrayOk(sys, sys.strays[k]);
    RunOnForm(sys, k);
    FileKeptWhere(sys, sys', path, file);
  }

  // ---------- moves and the file ----------

  /** A move leaves the history and other paths alone, and its own operation in the queue unless it completes. */
  lemma MoveFrame(sys: System, s: nat, move: Move, path: string)
    requires Inv(sys.queue) && SendersOk(sys)
    requires s < |sys.senders| && sys.senders[s].Busy? && CanMove(sys.queue, sys.senders[s], move)
    ensures var job, sys' := sys.senders[s].job, Moved(sys, s, move);
      && sys'.history == sys.history
      && |sys'.senders| == |sys.senders|
      && (sys'.senders[s].Busy? ==> sys'.senders[s].job == job)
      && (forall t | 0 <= t < |sys.senders| && t != s :: sys'.senders[t] == sys.senders[t])
      && (path != job.path ==>
            && CellOf(sys', path) == CellOf(sys, path)
            && (path in Unclean(sys') <==> path in Unclean(sys)))
      && (PathIdle(sys'.queue.ops, path) ==> PathIdle(sys.queue.ops, path) || (move.Complete? && path == job.path))
  {
    hide Inv, SendersOk, SegmentFits, AbortFlag, Answer, Handle;
    SenderIsOk(sys, s);
    MoveQueue(sys, s, move, path);
    MoveAddsNothing(sys, s, move);
    MoveOthers(sys, s, move, path);
  }

  lemma MoveOthers(sys: System, s: nat, move: Move, path: string)
    requires s < |sys.senders| && sys.senders[s].Busy? && CanMove(sys.queue, sys.senders[s], move)
    ensures var job, sys' := sys.senders[s].job, Moved(sys, s, move);
      && |sys'.senders| == |sys.senders|
      && (sys'.senders[s].Busy? ==> sys'.senders[s].job == job)
      && (forall t | 0 <= t < |sys.senders| && t != s :: sys'.senders[t] == sys.senders[t])
      && (path != job.path ==>
            && CellOf(sys', path) == CellOf(sys, path)
            && (path in Unclean(sys') <==> path in Unclean(sys)))
  {
    if IsAnswered(move) {
      hide Moved, Answer;
      var base, ok := AnsweredForm(sys, s, move);
      AnswerOthers(base, s, sys.senders[s].stage.message, ok, path);
    } else {
      hide SegmentFits, AbortFlag, Answer, QueueSpec.Remove, QueueSpec.Free, Handle;
      if sys.senders[s].stage.Guarded? {
        ExecuteOthers(sys, s, path);
      }
    }
  }

  lemma ExecuteOthers(sys: System, s: nat, path: string)
    requires s < |sys.senders| && sys.senders[s].Busy? && sys.senders[s].stage.Guarded?
    ensures var sender := sys.senders[s];
      var store := Handle(sys.store, RequestOf(sys, sender, sender.stage.message)).0;
      path != sender.job.path ==> At(store, Key(sys.user, path)) == CellOf(sys, path)
  {
    hide Respond;
  }

  lemma AnswerOthers(sys: System, s: nat, message: Message, ok: bool, path: string)
    requires s < |sys.senders| && sys.senders[s].Busy?
    ensures var job, sys' := sys.senders[s].job, Answer(sys, s, message, ok);
      && |sys'.senders| == |sys.senders|
      && (sys'.senders[s].Busy? ==> sys'.senders[s].job == job)
      && (forall t | 0 <= t < |sys.senders| && t != s :: sys'.senders[t] == sys.senders[t])
      && sys'.store == sys.store && sys'.user == sys.user && sys'.disturbed == sys.disturbed
      && (path != job.path ==> (path in Unclean(sys') <==> path in Unclean(sys)))
  {
    hide Requests, QueueSpec.Free;
  }

  lemma MoveQueue(sys: System, s: nat, move: Move, path: string)
    requires Inv(sys.queue)
    requires s < |sys.senders| && sys.senders[s].Busy? && CanMove(sys.queue, sys.senders[s], move)
    requires QueuedInProcess(sys.queue.ops, sys.senders[s].job)
    ensures var job, ops' := sys.senders[s].job, Moved(sys, s, move).queue.ops;
      PathIdle(ops', path) ==> PathIdle(sys.queue.ops, path) || (move.Complete? && path == job.path)
  {
    hide Inv, SegmentFits, AbortFlag, Handle, QueueSpec.Remove, QueueSpec.Free, PathIdle, Requests;
    var job := sys.senders[s].job;
    FreeSamePaths(sys.queue, job, path);
    RemoveOtherPaths(sys.queue, job, path);
  }

  lemma FreeSamePaths(q: Queue, job: Job, path: string)
    requires Inv(q) && QueuedInProcess(q.ops, job)
    ensures PathIdle(QueueSpec.Free(q, job.id).ops, path) <==> PathIdle(q.ops, path)
  {
    hide Inv;
    HeldByIndex(q, job);
    InvOrdersIds(q);
    SetProcessingSameJobs(q.ops, IndexOf(q.ops, job.id), false);
    SameJobsSamePaths(q.ops, QueueSpec.Free(q, job.id).ops, path);
  }

  lemma RemoveOtherPaths(q: Queue, job: Job, path: string)
    requires Inv(q) && QueuedInProcess(q.ops, job)
    ensures path != job.path ==> (PathIdle(QueueSpec.Remove(q, job.id).ops, path) <==> PathIdle(q.ops, path))
  {
    RemovedJobs(q, job);
    if path != job.path && PathIdle(QueueSpec.Remove(q, job.id).ops, path) {
      var held :| held in q.ops && held.job == job;
      forall op | op in q.ops
        ensures op.job.path != path
      {
        if op.job.id == job.id {
          SameIdSameOp(q.ops, op, held);
        }
      }
    }
  }

  /** The acknowledgement of the last segment: the server has the whole file. */
  lemma LastSegmentMakesFile(sys: System, s: nat, message: Message, file: seq<Byte>)
    requires s < |sys.senders| && sys.senders[s].Busy? && sys.senders[s].stage == Answered(message, true)
    requires UndisturbedOk(sys, s) && SenderFrom(sys.senders[s], sys.senders[s].job.path, file)
    requires message.SegmentMessage? && sys.senders[s].job.command.UploadCommand?
    requires sys.senders[s].next + 1 >= Requests(sys.senders[s].job.meta.size)
    ensures HasFile(sys, sys.senders[s].job, file)
  {
    hide SentBytes, SegmentOf, Requests, SegmentLength;
    SentBytesGrow(file, sys.senders[s].next);
  }

  /** An operation that ends with a response has ended well only by that acknowledgement. */
  lemma AnswerEndsWell(sys: System, s: nat, ok: bool, path: string, file: seq<Byte>)
    requires SendersOk(sys) && SendersFrom(sys, path, file)
    requires s < |sys.senders| && sys.senders[s].Busy? && sys.senders[s].stage.Answered?
    requires sys.senders[s].job.path == path
    requires sys.senders[s].stage.ok || !ok
    requires sys.senders[s].job.command.UploadCommand? && IsLatest(sys.history, sys.senders[s].job)
    requires var sys' := Answer(sys, s, sys.senders[s].stage.message, ok);
      sys'.senders[s].Busy? && sys'.senders[s].stage.Finished? && path !in Unclean(sys')
    ensures HasFile(Answer(sys, s, sys.senders[s].stage.message, ok), sys.senders[s].job, file)
  {
    hide SendersOk, HasFile, SenderFrom, Received, SegmentFits;
    var sender, message := sys.senders[s], sys.senders[s].stage.message;
    SenderIsOk(sys, s);
    assert UndisturbedOk(sys, s);
    assert SenderFrom(sender, path, file);
    assert ok && message.SegmentMessage?;
    LastSegmentMakesFile(sys, s, message, file);
    SameCellSameFile(sys, Answer(sys, s, message, ok), sender.job, file);
  }

  lemma SameCellSameFile(sys: System, sys': System, job: Job, file: seq<Byte>)
    requires HasFile(sys, job, file) && sys'.store == sys.store && sys'.user == sys.user
    ensures HasFile(sys', job, file)
  {}

  lemma MoveKeepsFile(sys: System, s: nat, move: Move, path: string, file: seq<Byte>)
    requires Inv(sys.queue) && HistoryOk(sys) && SendersOk(sys) && AllSettled(sys)
    requires SendersFrom(sys, path, file) && FileKept(sys, path, file)
    requires s < |sys.senders| && sys.senders[s].Busy? && CanMove(sys.queue, sys.senders[s], move)
    ensures FileKept(Moved(sys, s, move), path, file)
  {
    hide Inv, HistoryOk, SendersOk, AllSettled, SendersFrom, FileKept, HasFile, Moved, EndedWell;
    var sys' := Moved(sys, s, move);
    MoveFrame(sys, s, move, path);
    forall job | EndedWell(sys', job) && job.path == path
      ensures HasFile(sys', job, file) || (EndedWell(sys, job) && CellOf(sys', path) == CellOf(sys, path))
    {
      if sys.senders[s].job.path != path {
        ElsewhereEndsNothing(sys, s, move, job);
      } else if move.Complete? {
        CompletionEndsNothing(sys, s, job);
      } else {
        EndingMove(sys, s, move, job, file);
      }
    }
    FileKeptWhere(sys, sys', path, file);
  }

  lemma ElsewhereEndsNothing(sys: System, s: nat, move: Move, job: Job)
    requires Inv(sys.queue) && SendersOk(sys)
    requires s < |sys.senders| && sys.senders[s].Busy? && CanMove(sys.queue, sys.senders[s], move)
    requires sys.senders[s].job.path != job.path && EndedWell(Moved(sys, s, move), job)
    ensures EndedWell(sys, job)
  {
    hide Inv, SendersOk, Moved, IsLatest, PathIdle;
    var sys' := Moved(sys, s, move);
    MoveFrame(sys, s, move, job.path);
    if FinishedBySome(sys'.senders, job) {
      var t :| 0 <= t < |sys'.senders| && sys'.senders[t].Busy? && sys'.senders[t].stage.Finished?
            && sys'.senders[t].job == job;
      assert t != s && sys.senders[t] == sys'.senders[t];
    }
  }

  /** No other sender works on the path, so only `s` can have finished there. */
  lemma OnlyOneFinishes(sys: System, s: nat, senders: seq<Sender>, job: Job)
    requires Inv(sys.queue) && SendersOk(sys)
    requires s < |sys.senders| && sys.senders[s].Busy? && sys.senders[s].job.path == job.path
    requires |senders| == |sys.senders| && forall t | 0 <= t < |senders| && t != s :: senders[t] == sys.senders[t]
    requires FinishedBySome(senders, job)
    ensures senders[s].Busy? && senders[s].stage.Finished? && senders[s].job == job
  {
    hide Inv, SendersOk;
    var t :| 0 <= t < |senders| && senders[t].Busy? && senders[t].stage.Finished? && senders[t].job == job;
    if t != s {
      PathsAreExclusive(sys, s, t);
    }
  }

  lemma CompletionEndsNothing(sys: System, s: nat, job: Job)
    requires Inv(sys.queue) && HistoryOk(sys) && SendersOk(sys) && AllSettled(sys)
    requires s < |sys.senders| && sys.senders[s].Busy? && sys.senders[s].stage.Finished?
    requires sys.senders[s].job.path == job.path && EndedWell(Moved(sys, s, Complete), job)
    ensures EndedWell(sys, job) && CellOf(Moved(sys, s, Complete), job.path) == CellOf(sys, job.path)
  {
    hide Inv, HistoryOk, SendersOk, IsLatest, PathIdle;
    var sys' := Moved(sys, s, Complete);
    OthersStayQueued(sys, s, job);
    assert FinishedBySome(sys.senders, sys.senders[s].job);
    if FinishedBySome(sys'.senders, job) {
      OnlyOneFinishes(sys, s, sys'.senders, job);
    }
  }

  /** If the newest operation on the path is another one than that which completes, it stays queued. */
  lemma OthersStayQueued(sys: System, s: nat, job: Job)
    requires Inv(sys.queue) && HistoryOk(sys) && SendersOk(sys) && AllSettled(sys)
    requires s < |sys.senders| && sys.senders[s].Busy? && sys.senders[s].stage.Finished?
    requires sys.senders[s].job.path == job.path && IsLatest(sys.history, job)
    ensures job != sys.senders[s].job ==> !PathIdle(Moved(sys, s, Complete).queue.ops, job.path)
  {
    hide Inv, HistoryOk, SendersOk, IsLatest;
    var held := sys.senders[s].job;
    HeldIsQueued(sys, s);
    RemovedJobs(sys.queue, held);
    assert Settled(sys, job);
    if job != held {
      var op :| op in sys.queue.ops && op.job == job;
      SameIdSameJob(sys.queue, op, held);
      assert op in QueueSpec.Remove(sys.queue, held.id).ops;
    }
  }

  lemma SameIdSameJob(q: Queue, op: Op, job: Job)
    requires Inv(q) && op in q.ops && QueuedInProcess(q.ops, job)
    ensures op.job.id == job.id ==> op.job == job
  {
    var held :| held in q.ops && held.job == job;
    if op.job.id == job.id {
      SameIdSameOp(q.ops, op, held);
    }
  }

  lemma EndingMove(sys: System, s: nat, move: Move, job: Job, file: seq<Byte>)
    requires Inv(sys.queue) && HistoryOk(sys) && SendersOk(sys) && SendersFrom(sys, job.path, file)
    requires s < |sys.senders| && sys.senders[s].Busy? && CanMove(sys.queue, sys.senders[s], move)
    requires !move.Complete? && sys.senders[s].job.path == job.path && EndedWell(Moved(sys, s, move), job)
    ensures HasFile(Moved(sys, s, move), job, file)
  {
    hide Inv, HistoryOk, SendersOk, SendersFrom, IsLatest, PathIdle, HasFile, Moved, Answer;
    var sys' := Moved(sys, s, move);
    MoveFrame(sys, s, move, job.path);
    HeldIsQueued(sys, s);
    OnlyOneFinishes(sys, s, sys'.senders, job);
    EndingIsAnswer(sys, s, move);
    AnswerEndsWell(sys, s, move.Receive? && sys.senders[s].stage.ok, job.path, file);
  }

  lemma EndingIsAnswer(sys: System, s: nat, move: Move)
    requires s < |sys.senders| && sys.senders[s].Busy? && CanMove(sys.queue, sys.senders[s], move)
    requires !move.Complete? && |Moved(sys, s, move).senders| == |sys.senders|
    requires Moved(sys, s, move).senders[s].Busy? && Moved(sys, s, move).senders[s].stage.Finished?
    requires sys.senders[s].job.path !in Unclean(Moved(sys, s, move))
    ensures sys.senders[s].stage.Answered?
    ensures Moved(sys, s, move) ==
      Answer(sys, s, sys.senders[s].stage.message, move.Receive? && sys.senders[s].stage.ok)
  {
    hide SegmentFits, AbortFlag, Handle;
  }

  // ---------- whole runs ----------

  ghost predicate FromFile(sys: System, path: string, file: seq<Byte>) {
    SendersFrom(sys, path, file) && FileKept(sys, path, file)
  }

  lemma NextKeepsSendersFrom(sys: System, action: Action, path: string, file: seq<Byte>)
    requires Enabled(sys, action) && SendersFrom(sys, path, file) && SendsFrom(sys, action, path, file)
    ensures SendersFrom(Next(sys, action), path, file)
  {
    hide SenderFrom, SendsFrom, Moved, CanMove, FirstReady, RanOn;
    match action
    case AddOp(_, _, _) =>
    case Take(s) =>
      FreshSenderFrom(Next(sys, action).senders[s], path, file);
    case Act(s, move) =>
      MoveKeepsSenderFrom(sys, s, move, path, file);
    case RunOn(k) =>
      RunOnForm(sys, k);
  }

  lemma FreshSenderFrom(sender: Sender, path: string, file: seq<Byte>)
    requires sender.Busy? && sender.sent == [] && sender.next == 0 && sender.stage == Local
    ensures SenderFrom(sender, path, file)
  {}

  lemma NextKeepsFile(sys: System, store0: Store, action: Action, path: string, file: seq<Byte>)
    requires Invariant(sys, store0) && Enabled(sys, action)
    requires FromFile(sys, path, file) && SendsFrom(sys, action, path, file)
    ensures FromFile(Next(sys, action), path, file)
  {
    hide Inv, HistoryOk, SendersOk, StraysOk, AllSettled, AllHeld, SendersFrom, FileKept, SendsFrom, Moved, RanOn,
      CanMove;
    NextKeepsSendersFrom(sys, action, path, file);
    match action
    case AddOp(_, _, _) => AddKeepsFile(sys, action, path, file);
    case Take(s) => TakeKeepsFile(sys, s, path, file);
    case Act(s, move) => MoveKeepsFile(sys, s, move, path, file);
    case RunOn(k) => RunOnKeepsFile(sys, k, path, file);
  }

  lemma InitFromFile(sys: System, path: string, file: seq<Byte>)
    requires Init(sys)
    ensures FromFile(sys, path, file)
  {}

  lemma {:induction false} RunKeepsFile(sys: System, actions: seq<Action>, path: string, file: seq<Byte>)
    requires Init(sys) && Run(sys, actions).Some? && StandsStill(sys, actions, path, file)
    ensures FromFile(Run(sys, actions).value, path, file)
  {
    hide Invariant, Enabled, Next, FromFile, SendsFrom, Init;
    if actions == [] {
      InitFromFile(sys, path, file);
    } else {
      var init := actions[..|actions| - 1];
      RunKeepsFile(sys, init, path, file);
      RunKeepsInvariant(sys, init);
      NextKeepsFile(Run(sys, init).value, sys.store, actions[|actions| - 1], path, file);
    }
  }

  /**
   The whole way there and back: while the local file stands still, whatever else happens, aborts, retries and
   interleavings included, once its path is idle and not unclean and its newest operation is an upload, probe
   and restore give the file itself back exactly if it is shorter than 2 GiB.
   */
  lemma {:induction false} StandingFileIsRestored(sys: System, actions: seq<Action>, path: string, file: seq<Byte>)
    requires Init(sys) && Run(sys, actions).Some? && StandsStill(sys, actions, path, file)
    requires PathIdle(Run(sys, actions).value.queue.ops, path) && path !in Unclean(Run(sys, actions).value)
    requires Newest(Run(sys, actions).value.history, path).Some?
    requires Newest(Run(sys, actions).value.history, path).value.command.UploadCommand?
    ensures ProbeAndRestore(Run(sys, actions).value.store, sys.user, path) == Restored(file) <==> |file| <= INT_MAX
  {
    hide Run, Init, Newest, PathIdle, StandsStill, Holds, IsLatest;
    var sys' := Run(sys, actions).value;
    var job := Newest(sys'.history, path).value;
    NewestHolds(sys, actions, path);
    NewestIsOnPath(sys'.history, path);
    RunKeepsFile(sys, actions, path, file);
    RunKeepsUser(sys, actions);
    assert EndedWell(sys', job);
    assert HasFile(sys', job, file);
    if Countable(|file|) {
      assert UploadedPart(file) == file;
      HeldFileIsRestored(sys'.store, sys.user, job);
    } else {
      HugeFilesAreNotRestored(sys'.store, sys.user, path, file);
    }
  }

  /** On an idle path that is not unclean the newest operation is the latest, and its effect is there. */
  lemma {:induction false} NewestHolds(sys: System, actions: seq<Action>, path: string)
    requires Init(sys) && Run(sys, actions).Some?
    requires PathIdle(Run(sys, actions).value.queue.ops, path) && path !in Unclean(Run(sys, actions).value)
    requires Newest(Run(sys, actions).value.history, path).Some?
    ensures var sys' := Run(sys, actions).value;
      var job := Newest(sys'.history, path).value;
      IsLatest(sys'.history, job) && Holds(CellOf(sys', path), job)
  {
    hide Run, Init, Newest, Holds, Inv, SendersOk, StraysOk, AllHeld, AllSettled;
    var sys' := Run(sys, actions).value;
    NewestIsNeverLost(sys, actions, path);
    IdleIsNotQueued(sys'.queue.ops, path);
    NewestIsOnPath(sys'.history, path);
    RunKeepsInvariant(sys, actions);
    NewestIsLatest(sys'.history, path);
  }
}
