/** The client's work queue: a list of shared, mutable operations guarded by one lock. */
module OutputQueue {
  import opened ServerStore
  import opened QueueSpec

  class FileOperation {
    const job: Job
    var processing: bool
    var abort: bool

    constructor (job: Job)
      ensures this.job == job && !processing && !abort
    {
      this.job := job;
      processing, abort := false, false;
    }

    function Value(): Op
      reads this
    {
      Op(job, processing, abort)
    }
  }

  ghost function Values(ops: seq<FileOperation>): (values: seq<Op>)
    reads ops
    ensures |values| == |ops| && forall i | 0 <= i < |ops| :: values[i] == ops[i].Value()
  {
    seq(|ops|, i requires 0 <= i < |ops| reads ops => ops[i].Value())
  }

  /**
   Each method is one critical section. Waiting on the condition variable is the method's precondition;
   `GetFileOperation` returns null where the source goes on waiting.
   */
  class OutputQueue {
    var queue: seq<FileOperation>
    var processingFiles: set<string>
    var idCounter: nat

    ghost predicate Valid()
      reads this`queue
    {
      forall i, j | 0 <= i < j < |queue| :: queue[i] != queue[j]
    }

    ghost function Contents(): Queue
      reads this, queue
    {
      Queue(Values(queue), processingFiles, idCounter)
    }

    constructor ()
      ensures Valid() && queue == [] && Contents() == EMPTY_QUEUE
    {
      queue, processingFiles, idCounter := [], {}, 0;
    }

    /** The list is walked up to position `it`, where `walked` operations of the list `original` have been seen. */
    ghost predicate Walking(original: seq<FileOperation>, values: seq<Op>, kept: seq<Op>, it: nat, walked: nat)
      reads this`queue, queue, original
    {
      && Valid() && it <= |queue| && walked <= |original| == |values|
      && queue[it..] == original[walked..]
      && (forall op | op in queue :: op in original)
      && |kept| == it && (forall i | 0 <= i < it :: queue[i].Value() == kept[i])
      && (forall i | walked <= i < |original| :: original[i].Value() == values[i])
      && (forall i, j | 0 <= i < j < |original| :: original[i] != original[j])
    }

    lemma StartWalk(kept: seq<Op>)
      requires Valid() && kept == []
      ensures Walking(queue, Values(queue), kept, 0, 0)
    {}

    lemma EndWalk(original: seq<FileOperation>, values: seq<Op>, kept: seq<Op>, it: nat, walked: nat)
      requires it == |queue| && Walking(original, values, kept, it, walked)
      ensures walked == |values| && values[..walked] == values
      ensures Valid() && Values(queue) == kept && forall op | op in queue :: op in original
    {
      assert |original[walked..]| == |queue[it..]| == 0;
    }

    /** `queue.erase(it)`: the walk goes on at the next operation. */
    method EraseAt(
        it: nat, ghost original: seq<FileOperation>, ghost values: seq<Op>, ghost kept: seq<Op>, ghost walked: nat)
      requires it < |queue| && Walking(original, values, kept, it, walked)
      modifies this`queue
      ensures |queue| == old(|queue|) - 1 && walked < |values| && Walking(original, values, kept, it, walked + 1)
    {
      assert queue[it..][1..] == queue[it + 1..] && original[walked..][1..] == original[walked + 1..];
      queue := queue[..it] + queue[it + 1..];
      assert queue[it..] == original[walked + 1..];
    }

    /** `set_abort(true)` on an operation in process, and on to the next. */
    method FlagAt(
        it: nat, ghost original: seq<FileOperation>, ghost values: seq<Op>, ghost kept: seq<Op>, ghost walked: nat)
      requires it < |queue| && Walking(original, values, kept, it, walked)
      modifies queue[it]
      ensures walked < |values|
      ensures Walking(original, values, kept + [values[walked].(abort := true)], it + 1, walked + 1)
    {
      WalkOn(it, original, values, kept, walked);
      queue[it].abort := true;
    }

    lemma WalkOn(it: nat, original: seq<FileOperation>, values: seq<Op>, kept: seq<Op>, walked: nat)
      requires it < |queue| && Walking(original, values, kept, it, walked)
      ensures walked < |original| == |values| && queue[it] == original[walked] && queue[it].Value() == values[walked]
      ensures Walking(original, values, kept + [values[walked]], it + 1, walked + 1)
    {
      assert queue[it] == queue[it..][0] == original[walked..][0];
      assert queue[it..][1..] == queue[it + 1..] && original[walked..][1..] == original[walked + 1..];
    }

    method AddFileOperation(path: string, meta: Metadata, command: Command)
      requires Valid() && |queue| < QUEUE_LIMIT
      modifies this, queue
      ensures Valid() && Contents() == Add(old(Contents()), path, meta, command)
      ensures forall op | op in queue :: op in old(queue) || fresh(op)
    {
      ghost var before := Values(queue);
      CoalesceInPlace(path);
      var added := new FileOperation(Job(idCounter, path, command, meta));
      ghost var kept := Values(queue);
      queue := queue + [added];
      idCounter := idCounter + 1;
      assert Values(queue) == kept + [added.Value()];
    }

    /** The loop of `add_file_operation`, which erases or flags while it walks. */
    method CoalesceInPlace(path: string)
      requires Valid()
      modifies this`queue, queue
      ensures Valid() && Values(queue) == Coalesce(old(Values(queue)), path)
      ensures forall op | op in queue :: op in old(queue)
    {
      hide Walking;
      ghost var before := Values(queue);
      var it := 0;
      ghost var walked := 0;
      StartWalk(Coalesce(before[..0], path));
      while it < |queue|
        invariant it <= |queue| && walked <= |before|
        invariant Walking(old(queue), before, Coalesce(before[..walked], path), it, walked)
        decreases |queue| - it
      {
        var op := queue[it];
        ghost var kept := Coalesce(before[..walked], path);
        WalkOn(it, old(queue), before, kept, walked);
        assert before[..walked + 1][..walked] == before[..walked];
        if op.job.path == path {
          if op.processing {
            FlagAt(it, old(queue), before, kept, walked);
            it := it + 1;
          } else {
            EraseAt(it, old(queue), before, kept, walked);
          }
        } else {
          it := it + 1;
        }
        walked := walked + 1;
      }
      EndWalk(old(queue), before, Coalesce(before[..walked], path), it, walked);
    }

    method GetFileOperation() returns (taken: FileOperation?)
      requires Valid()
      modifies this, queue
      ensures Valid() && queue == old(queue)
      ensures taken == null <==>
        FirstReady(old(Contents().ops), old(processingFiles)) == |queue|
      ensures taken == null ==> Contents() == old(Contents())
      ensures taken != null ==>
        && taken == queue[FirstReady(old(Contents().ops), old(processingFiles))]
        && Contents() == Get(old(Contents()))
    {
      ghost var before := Values(queue);
      for i := 0 to |queue|
        invariant queue == old(queue) && processingFiles == old(processingFiles)
        invariant Contents() == old(Contents())
        invariant forall k | 0 <= k < i :: !Ready(before[k], processingFiles)
      {
        var val := queue[i];
        if !val.processing && val.job.path !in processingFiles {
          assert Ready(before[i], processingFiles);
          assert FirstReady(before, processingFiles) == i;
          val.processing := true;
          processingFiles := processingFiles + {val.job.path};
          assert Values(queue) == before[i := before[i].(processing := true)];
          return val;
        }
      }
      taken := null;
    }

    method FreeFileOperation(id: nat) returns (found: bool)
      requires Valid() && |queue| > 0
      modifies this, queue
      ensures Valid() && queue == old(queue)
      ensures Contents() == Free(old(Contents()), id)
      ensures found <==> IndexOf(old(Contents().ops), id) < |queue|
    {
      ghost var before := Values(queue);
      for i := 0 to |queue|
        invariant queue == old(queue) && processingFiles == old(processingFiles)
        invariant Contents() == old(Contents())
        invariant forall k | 0 <= k < i :: before[k].job.id != id
      {
        var val := queue[i];
        if val.job.id == id {
          assert IndexOf(before, id) == i;
          val.processing := false;
          processingFiles := processingFiles - {val.job.path};
          assert Values(queue) == before[i := before[i].(processing := false)];
          return true;
        }
      }
      found := false;
    }

    /** The source's `remove_if` visits the whole list and its method always returns false. */
    method RemoveFileOperation(id: nat) returns (result: bool)
      requires Valid() && |queue| > 0
      modifies this
      ensures Valid() && (forall op | op in queue :: op in old(queue)) && !result
      ensures Contents() == Remove(old(Contents()), id)
    {
      RemoveIf(id);
      result := false;
    }

    method RemoveIf(id: nat)
      requires Valid()
      modifies this`queue, this`processingFiles
      ensures Valid() && Values(queue) == Without(old(Values(queue)), id)
      ensures processingFiles == old(processingFiles) - PathsOf(old(Values(queue)), id)
      ensures forall op | op in queue :: op in old(queue)
    {
      hide Walking;
      ghost var before := Values(queue);
      var it := 0;
      ghost var walked := 0;
      StartWalk(Without(before[..0], id));
      while it < |queue|
        invariant it <= |queue| && walked <= |before|
        invariant Walking(old(queue), before, Without(before[..walked], id), it, walked)
        invariant processingFiles == old(processingFiles) - PathsOf(before[..walked], id)
        decreases |queue| - it
      {
        var op := queue[it];
        ghost var kept := Without(before[..walked], id);
        WalkOn(it, old(queue), before, kept, walked);
        assert before[..walked + 1][..walked] == before[..walked];
        if op.job.id == id {
          processingFiles := processingFiles - {op.job.path};
          EraseAt(it, old(queue), before, kept, walked);
        } else {
          it := it + 1;
        }
        walked := walked + 1;
      }
      EndWalk(old(queue), before, Without(before[..walked], id), it, walked);
    }

    method Size() returns (size: nat)
      ensures size == |Contents().ops|
    {
      size := |queue|;
    }
  }
}
