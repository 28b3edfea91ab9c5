/** The client's work queue as a value, and the invariant its four operations keep. */
module QueueSpec {
  import opened ServerStore

  datatype Command = UploadCommand | RemoveCommand

  /** The immutable part of a FileOperation. */
  datatype Job = Job(id: nat, path: string, command: Command, meta: Metadata)

  datatype Op = Op(job: Job, processing: bool, abort: bool)

  datatype Queue = Queue(ops: seq<Op>, processingFiles: set<string>, idCounter: nat)

  const EMPTY_QUEUE := Queue([], {}, 0)

  const QUEUE_LIMIT: nat := 100

  // ---------- the operations ----------

  /** The walk of `add_file_operation`: operations in process are flagged, the others on the path dropped. */
  function Coalesce(ops: seq<Op>, path: string): seq<Op> {
    if ops == [] then []
    else
      var init, last := Coalesce(ops[..|ops| - 1], path), ops[|ops| - 1];
      if last.job.path != path then init + [last]
      else if last.processing then init + [last.(abort := true)]
      else init
  }

  function Add(q: Queue, path: string, meta: Metadata, command: Command): Queue {
    Queue(Coalesce(q.ops, path) + [Op(Job(q.idCounter, path, command, meta), false, false)],
          q.processingFiles,
          q.idCounter + 1)
  }

  predicate Ready(op: Op, processingFiles: set<string>) {
    !op.processing && op.job.path !in processingFiles
  }

  /** The position of the first operation a sender may take, or the length of the queue. */
  function FirstReady(ops: seq<Op>, processingFiles: set<string>): (n: nat)
    ensures n <= |ops|
    ensures n < |ops| ==> Ready(ops[n], processingFiles)
    ensures forall i | 0 <= i < n :: !Ready(ops[i], processingFiles)
  {
    if ops == [] then 0
    else
      var init := ops[..|ops| - 1];
      var n := FirstReady(init, processingFiles);
      if n < |init| then n
      else if Ready(ops[|ops| - 1], processingFiles) then |init|
      else |ops|
  }

  function Get(q: Queue): Queue
    requires FirstReady(q.ops, q.processingFiles) < |q.ops|
  {
    var n := FirstReady(q.ops, q.processingFiles);
    q.(ops := q.ops[n := q.ops[n].(processing := true)],
       processingFiles := q.processingFiles + {q.ops[n].job.path})
  }

  /** The position of the operation with this id, or the length of the queue. */
  function IndexOf(ops: seq<Op>, id: nat): (n: nat)
    ensures n <= |ops|
    ensures n < |ops| ==> ops[n].job.id == id
    ensures forall i | 0 <= i < n :: ops[i].job.id != id
  {
    if ops == [] then 0
    else
      var init := ops[..|ops| - 1];
      var n := IndexOf(init, id);
      if n < |init| then n
      else if ops[|ops| - 1].job.id == id then |init|
      else |ops|
  }

  function Free(q: Queue, id: nat): Queue {
    var n := IndexOf(q.ops, id);
    if n == |q.ops| then q
    else q.(ops := q.ops[n := q.ops[n].(processing := false)],
            processingFiles := q.processingFiles - {q.ops[n].job.path})
  }

  function Without(ops: seq<Op>, id: nat): seq<Op> {
    if ops == [] then []
    else
      var init, last := Without(ops[..|ops| - 1], id), ops[|ops| - 1];
      if last.job.id == id then init else init + [last]
  }

  function Remove(q: Queue, id: nat): Queue {
    q.(ops := Without(q.ops, id),
       processingFiles := q.processingFiles - PathsOf(q.ops, id))
  }

  /** The paths of the operations with this id; ids being unique, there is at most one. */
  function PathsOf(ops: seq<Op>, id: nat): set<string> {
    if ops == [] then {}
    else
      var init, last := PathsOf(ops[..|ops| - 1], id), ops[|ops| - 1];
      if last.job.id == id then init + {last.job.path} else init
  }

  // ---------- the invariant ----------

  ghost predicate IdsIncrease(ops: seq<Op>) {
    forall i, j | 0 <= i < j < |ops| :: ops[i].job.id < ops[j].job.id
  }

  /** A later operation on the same path is queued. */
  ghost predicate Superseded(ops: seq<Op>, op: Op) {
    exists later :: later in ops && Supersedes(later, op)
  }

  predicate Supersedes(later: Op, op: Op) {
    later.job.path == op.job.path && op.job.id < later.job.id
  }

  ghost predicate InProcess(ops: seq<Op>, path: string) {
    exists op :: op in ops && op.processing && op.job.path == path
  }

  ghost predicate Inv(q: Queue) {
    && |q.ops| <= QUEUE_LIMIT
    && IdsIncrease(q.ops)
    && (forall op | op in q.ops :: op.job.id < q.idCounter)
    // the paths in process are exactly those of the operations in process
    && (forall path :: path in q.processingFiles <==> InProcess(q.ops, path))
    // abort means superseded
    && (forall op | op in q.ops :: op.abort <==> Superseded(q.ops, op))
    // an operation in process is the earliest on its path
    && (forall a, b | a in q.ops && b in q.ops && Supersedes(b, a) :: !b.processing)
    // at most two operations per path
    && (forall a, b, c | a in q.ops && b in q.ops && c in q.ops :: !(Supersedes(b, a) && Supersedes(c, b)))
  }

  lemma SameIdSameOp(ops: seq<Op>, a: Op, b: Op)
    requires IdsIncrease(ops) && a in ops && b in ops && a.job.id == b.job.id
    ensures a == b
  {
    var i :| 0 <= i < |ops| && ops[i] == a;
    var j :| 0 <= j < |ops| && ops[j] == b;
    assert !(i < j) && !(j < i);
  }

  // ---------- add ----------

  lemma {:induction false} CoalesceKeepsOthers(ops: seq<Op>, path: string)
    ensures forall op: Op | op.job.path != path :: op in Coalesce(ops, path) <==> op in ops
  {
    if ops != [] {
      var init, last := ops[..|ops| - 1], ops[|ops| - 1];
      assert ops == init + [last];
      CoalesceKeepsOthers(init, path);
    }
  }

  lemma {:induction false} CoalesceFlags(ops: seq<Op>, path: string, op: Op)
    requires op in Coalesce(ops, path) && op.job.path == path
    ensures op.processing && op.abort && (op in ops || op.(abort := false) in ops)
  {
    var init, last := ops[..|ops| - 1], ops[|ops| - 1];
    assert ops == init + [last];
    if op in Coalesce(init, path) {
      CoalesceFlags(init, path, op);
    } else {
      assert op == last.(abort := true) && last in ops;
      assert last == if last.abort then op else op.(abort := false);
    }
  }

  lemma {:induction false} CoalesceKeepsProcessing(ops: seq<Op>, path: string, op: Op)
    requires op in ops && op.job.path == path && op.processing
    ensures op.(abort := true) in Coalesce(ops, path)
  {
    var init, last := ops[..|ops| - 1], ops[|ops| - 1];
    assert ops == init + [last];
    if op in init {
      CoalesceKeepsProcessing(init, path, op);
    }
  }

  lemma {:induction false} CoalesceOrder(ops: seq<Op>, path: string)
    requires IdsIncrease(ops)
    ensures IdsIncrease(Coalesce(ops, path)) && |Coalesce(ops, path)| <= |ops|
  {
    if ops != [] {
      var init, last := ops[..|ops| - 1], ops[|ops| - 1];
      CoalesceOrder(init, path);
      forall op | op in Coalesce(init, path)
        ensures op.job.id < last.job.id
      {
        CoalesceIds(init, path, op);
      }
    }
  }

  lemma CoalesceIds(ops: seq<Op>, path: string, op: Op)
    requires op in Coalesce(ops, path)
    ensures exists op0 :: op0 in ops && op0.job == op.job
  {
    if op.job.path == path {
      CoalesceFlags(ops, path, op);
      assert (if op in ops then op else op.(abort := false)) in ops;
    } else {
      CoalesceKeepsOthers(ops, path);
    }
  }

  /** What coalescing keeps, element by element. */
  lemma CoalesceMembers(ops: seq<Op>, path: string)
    requires IdsIncrease(ops)
    ensures IdsIncrease(Coalesce(ops, path)) && |Coalesce(ops, path)| <= |ops|
    ensures forall op | op in Coalesce(ops, path) && op.job.path != path :: op in ops
    ensures forall op | op in ops && op.job.path != path :: op in Coalesce(ops, path)
    ensures forall op | op in Coalesce(ops, path) && op.job.path == path ::
      op.processing && op.abort && (op in ops || op.(abort := false) in ops)
    ensures forall op | op in ops && op.job.path == path && op.processing ::
      op.(abort := true) in Coalesce(ops, path)
  {
    hide Coalesce;
    CoalesceOrder(ops, path);
    CoalesceKeepsOthers(ops, path);
    forall op | op in Coalesce(ops, path) && op.job.path == path
      ensures op.processing && op.abort && (op in ops || op.(abort := false) in ops)
    {
      CoalesceFlags(ops, path, op);
    }
    forall op | op in ops && op.job.path == path && op.processing
      ensures op.(abort := true) in Coalesce(ops, path)
    {
      CoalesceKeepsProcessing(ops, path, op);
    }
  }

  lemma AddKeepsInv(q: Queue, path: string, meta: Metadata, command: Command)
    requires Inv(q) && |q.ops| < QUEUE_LIMIT
    ensures Inv(Add(q, path, meta, command))
  {
    var q' := Add(q, path, meta, command);
    var kept := Coalesce(q.ops, path);
    var added := q'.ops[|kept|];
    CoalesceMembers(q.ops, path);
    forall op | op in kept
      ensures op.job.id < q.idCounter
    {
      assert op in q.ops || op.(abort := false) in q.ops;
    }
    AddKeepsProcessing(q, path, meta, command);
    AddKeepsOrder(q, path, meta, command);
    forall op | op in q'.ops
      ensures op.abort <==> Superseded(q'.ops, op)
    {
      if op in kept && op.job.path != path {
        forall later | Supersedes(later, op)
          ensures later in q'.ops <==> later in q.ops
        {}
        assert op in q.ops;
        if Superseded(q.ops, op) {
          var later :| later in q.ops && Supersedes(later, op);
          assert later in q'.ops;
        }
      } else if op in kept {
        assert Supersedes(added, op);
      }
    }
  }

  lemma AddKeepsProcessing(q: Queue, path: string, meta: Metadata, command: Command)
    requires Inv(q) && |q.ops| < QUEUE_LIMIT
    ensures forall p :: InProcess(Add(q, path, meta, command).ops, p) <==> InProcess(q.ops, p)
  {
    var ops' := Add(q, path, meta, command).ops;
    CoalesceMembers(q.ops, path);
    forall p
      ensures InProcess(ops', p) <==> InProcess(q.ops, p)
    {
      if InProcess(q.ops, p) {
        var op :| op in q.ops && op.processing && op.job.path == p;
        assert (if p == path then op.(abort := true) else op) in ops';
      }
      if InProcess(ops', p) {
        var op :| op in ops' && op.processing && op.job.path == p;
        assert op in q.ops || op.(abort := false) in q.ops;
      }
    }
  }

  lemma AddKeepsOrder(q: Queue, path: string, meta: Metadata, command: Command)
    requires Inv(q) && |q.ops| < QUEUE_LIMIT
    ensures var ops' := Add(q, path, meta, command).ops;
      && (forall a, b | a in ops' && b in ops' && Supersedes(b, a) :: !b.processing)
      && (forall a, b, c | a in ops' && b in ops' && c in ops' :: !(Supersedes(b, a) && Supersedes(c, b)))
  {
    var ops' := Add(q, path, meta, command).ops;
    var kept := Coalesce(q.ops, path);
    CoalesceMembers(q.ops, path);
    // on `path`, at most the one operation in process is kept
    forall a, b | a in kept && b in kept && Supersedes(b, a)
      ensures a.job.path != path && a in q.ops && b in q.ops
    {
      if a.job.path == path {
        var a0 := if a in q.ops then a else a.(abort := false);
        var b0 := if b in q.ops then b else b.(abort := false);
        assert Supersedes(b0, a0) && b0.processing;
        assert false;
      }
    }
    forall op | op in kept
      ensures op.job.id < q.idCounter
    {
      assert op in q.ops || op.(abort := false) in q.ops;
    }
  }

  // ---------- get and free ----------

  /** Changing only the processing flag of the operation at position `n`. */
  function SetProcessing(ops: seq<Op>, n: nat, processing: bool): seq<Op>
    requires n < |ops|
  {
    ops[n := ops[n].(processing := processing)]
  }

  lemma SetProcessingMembers(ops: seq<Op>, n: nat, processing: bool)
    requires IdsIncrease(ops) && n < |ops|
    ensures IdsIncrease(SetProcessing(ops, n, processing))
    ensures forall op | op in ops && op != ops[n] :: op in SetProcessing(ops, n, processing)
    ensures ops[n].(processing := processing) in SetProcessing(ops, n, processing)
    ensures forall op | op in SetProcessing(ops, n, processing) ::
      op == ops[n].(processing := processing) || (op in ops && op.job.id != ops[n].job.id)
  {
    var ops' := SetProcessing(ops, n, processing);
    assert ops'[n] == ops[n].(processing := processing);
    forall op | op in ops && op != ops[n]
      ensures op in ops'
    {
      var i :| 0 <= i < |ops| && ops[i] == op;
      assert ops'[i] == op;
    }
  }

  /** Whether an operation is superseded does not depend on processing flags. */
  lemma SupersededIgnoresProcessing(ops: seq<Op>, n: nat, processing: bool, a: Op, b: Op)
    requires IdsIncrease(ops) && n < |ops| && a.job == b.job
    ensures Superseded(SetProcessing(ops, n, processing), a) <==> Superseded(ops, b)
  {
    var ops' := SetProcessing(ops, n, processing);
    SetProcessingMembers(ops, n, processing);
    if Superseded(ops, b) {
      var later :| later in ops && Supersedes(later, b);
      assert Supersedes(if later == ops[n] then ops[n].(processing := processing) else later, a);
    }
    if Superseded(ops', a) {
      var later :| later in ops' && Supersedes(later, a);
      assert Supersedes(if later in ops then later else ops[n], b);
    }
  }

  lemma SetProcessingKeepsInv(q: Queue, n: nat, processing: bool)
    requires Inv(q) && n < |q.ops|
    requires processing ==> !InProcess(q.ops, q.ops[n].job.path)
    requires processing ==> forall i | 0 <= i < n :: q.ops[i].job.path != q.ops[n].job.path
    requires !processing ==> q.ops[n].processing
    ensures var path := q.ops[n].job.path;
      Inv(q.(ops := SetProcessing(q.ops, n, processing),
             processingFiles := if processing then q.processingFiles + {path} else q.processingFiles - {path}))
  {
    var ops', path := SetProcessing(q.ops, n, processing), q.ops[n].job.path;
    SetProcessingMembers(q.ops, n, processing);
    forall op | op in ops'
      ensures op.abort <==> Superseded(ops', op)
    {
      var op0 := if op in q.ops then op else q.ops[n];
      SupersededIgnoresProcessing(q.ops, n, processing, op, op0);
    }
    forall p
      ensures InProcess(ops', p) <==> if p == path then processing else InProcess(q.ops, p)
    {
      SetProcessingInProcess(q, n, processing, p);
    }
    forall a, b | a in ops' && b in ops' && Supersedes(b, a)
      ensures !b.processing
    {
      var a0 := if a in q.ops then a else q.ops[n];
      if b in q.ops {
        assert Supersedes(b, a0);
      }
    }
    forall a, b, c | a in ops' && b in ops' && c in ops'
      ensures !(Supersedes(b, a) && Supersedes(c, b))
    {
      var a0 := if a in q.ops then a else q.ops[n];
      var b0 := if b in q.ops then b else q.ops[n];
      var c0 := if c in q.ops then c else q.ops[n];
      assert !(Supersedes(b0, a0) && Supersedes(c0, b0));
    }
  }

  lemma SetProcessingInProcess(q: Queue, n: nat, processing: bool, p: string)
    requires Inv(q) && n < |q.ops|
    requires !processing ==> q.ops[n].processing
    ensures InProcess(SetProcessing(q.ops, n, processing), p) <==>
      if p == q.ops[n].job.path then processing else InProcess(q.ops, p)
  {
    var ops', path := SetProcessing(q.ops, n, processing), q.ops[n].job.path;
    SetProcessingMembers(q.ops, n, processing);
    if p == path {
      if processing {
        assert q.ops[n].(processing := true) in ops';
      } else if InProcess(ops', p) {
        var op :| op in ops' && op.processing && op.job.path == p;
        OneInProcess(q, op, q.ops[n]);
        assert false;
      }
    } else if InProcess(q.ops, p) {
      var op :| op in q.ops && op.processing && op.job.path == p;
      assert op in ops';
    }
  }

  /** Mutual exclusion: two operations in process are on different paths. */
  lemma OneInProcess(q: Queue, a: Op, b: Op)
    requires Inv(q) && a in q.ops && b in q.ops && a.processing && b.processing
    requires a.job.path == b.job.path
    ensures a == b
  {
    assert !Supersedes(a, b) && !Supersedes(b, a);
    SameIdSameOp(q.ops, a, b);
  }

  /** The operation a sender takes is the earliest on its path. */
  lemma ReadyIsEarliest(q: Queue, n: nat)
    requires Inv(q) && n == FirstReady(q.ops, q.processingFiles) < |q.ops|
    ensures !InProcess(q.ops, q.ops[n].job.path)
    ensures forall i | 0 <= i < n :: q.ops[i].job.path != q.ops[n].job.path
  {
    forall i | 0 <= i < n
      ensures q.ops[i].job.path != q.ops[n].job.path
    {
      assert !Ready(q.ops[i], q.processingFiles);
      if q.ops[i].job.path == q.ops[n].job.path {
        assert false;
      }
    }
  }

  lemma {:induction false} GetKeepsInv(q: Queue)
    requires Inv(q) && FirstReady(q.ops, q.processingFiles) < |q.ops|
    ensures Inv(Get(q))
  {
    var n := FirstReady(q.ops, q.processingFiles);
    ReadyIsEarliest(q, n);
    SetProcessingKeepsInv(q, n, true);
  }

  /** `id` belongs to an operation in process: what the senders guarantee when they free or remove. */
  predicate Held(q: Queue, id: nat) {
    IndexOf(q.ops, id) < |q.ops| && q.ops[IndexOf(q.ops, id)].processing
  }

  lemma {:induction false} FreeKeepsInv(q: Queue, id: nat)
    requires Inv(q) && Held(q, id)
    ensures Inv(Free(q, id))
  {
    SetProcessingKeepsInv(q, IndexOf(q.ops, id), false);
  }

  // ---------- remove ----------

  lemma {:induction false} WithoutMembers(ops: seq<Op>, id: nat)
    requires IdsIncrease(ops)
    ensures IdsIncrease(Without(ops, id)) && |Without(ops, id)| <= |ops|
    ensures forall op :: op in Without(ops, id) <==> op in ops && op.job.id != id
  {
    if ops != [] {
      var init, last := ops[..|ops| - 1], ops[|ops| - 1];
      assert ops == init + [last];
      WithoutMembers(init, id);
      assert forall op | op in Without(init, id) :: op.job.id < last.job.id;
    }
  }

  lemma {:induction false} PathsOfMembers(ops: seq<Op>, id: nat)
    ensures forall path ::
      path in PathsOf(ops, id) <==> exists op :: op in ops && op.job.id == id && op.job.path == path
  {
    if ops != [] {
      var init, last := ops[..|ops| - 1], ops[|ops| - 1];
      assert ops == init + [last];
      PathsOfMembers(init, id);
    }
  }

  lemma RemoveKeepsInv(q: Queue, id: nat)
    requires Inv(q) && Held(q, id)
    ensures Inv(Remove(q, id))
  {
    var q', gone := Remove(q, id), q.ops[IndexOf(q.ops, id)];
    WithoutMembers(q.ops, id);
    PathsOfMembers(q.ops, id);
    forall op | op in q.ops && op.job.id == id
      ensures op == gone
    {
      SameIdSameOp(q.ops, op, gone);
    }
    assert gone in q.ops;
    assert q'.processingFiles == q.processingFiles - {gone.job.path};
    forall path
      ensures InProcess(q'.ops, path) <==> path != gone.job.path && InProcess(q.ops, path)
    {
      if InProcess(q'.ops, path) {
        var op :| op in q'.ops && op.processing && op.job.path == path;
        if path == gone.job.path {
          OneInProcess(q, op, gone);
        }
      }
      if path != gone.job.path && InProcess(q.ops, path) {
        var op :| op in q.ops && op.processing && op.job.path == path;
        assert op in q'.ops;
      }
    }
    forall op | op in q'.ops
      ensures op.abort <==> Superseded(q'.ops, op)
    {
      if Superseded(q.ops, op) {
        var later :| later in q.ops && Supersedes(later, op);
        assert later != gone;
        assert later in q'.ops;
      }
    }
  }

  lemma EmptyInv()
    ensures Inv(EMPTY_QUEUE)
  {
    assert forall path :: !InProcess([], path);
  }
}
