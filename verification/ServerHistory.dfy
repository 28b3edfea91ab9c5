/** What holds of the server after any sequence of requests, honest or not. */
module ServerHistory {
  import opened Common
  import opened Crc32
  import opened Segments
  import opened ServerStore

  function Run(store: Store, requests: seq<Request>): Store {
    if requests == [] then store
    else Handle(Run(store, requests[..|requests| - 1]), requests[|requests| - 1]).0
  }

  function Outcomes(store: Store, requests: seq<Request>): (outcomes: seq<Outcome>)
    ensures |outcomes| == |requests|
  {
    if requests == [] then []
    else
      var init := requests[..|requests| - 1];
      Outcomes(store, init) + [Handle(Run(store, init), requests[|requests| - 1]).1]
  }

  lemma RunOneMore(store: Store, requests: seq<Request>, request: Request)
    ensures Run(store, requests + [request]) == Handle(Run(store, requests), request).0
    ensures Outcomes(store, requests + [request])
         == Outcomes(store, requests) + [Handle(Run(store, requests), request).1]
  {
    assert (requests + [request])[..|requests|] == requests;
  }

  // ---------- which segments are accepted ----------

  /** A missing row counts as last_segment 0, so segment 1 is let through without a segment 0. */
  lemma InSequenceIff(cell: Cell, segment: Segment)
    ensures Write(cell, segment).1 != WrongSegment <==>
      || segment.id == 0
      || (cell.row.Some? && segment.id == cell.row.value.lastSegment + 1)
      || (cell.row.None? && segment.id == 1)
  {}

  /** What is on disk before a segment's data is appended. */
  function Kept(cell: Cell, segment: Segment): seq<Byte> {
    if segment.id == 0 then [] else BytesOf(cell)
  }

  /** A segment is refused for its checksum exactly if it is in sequence, the last one, and completes a wrong file. */
  lemma InvalidChecksumIff(cell: Cell, segment: Segment)
    ensures Write(cell, segment).1 == InvalidChecksum <==>
      && (segment.id == 0 || segment.id == (if cell.row.Some? then cell.row.value.lastSegment + 1 else 1))
      && segment.id + 1 == CountSegments(segment.meta.size)
      && Checksum(Kept(cell, segment) + Flatten(segment.data)) != segment.meta.checksum
  {
    hide Checksum, Flatten;
  }

  /** What a write leaves: the cell as it was, nothing, or the data appended and the segment recorded. */
  lemma WriteLeaves(cell: Cell, segment: Segment)
    ensures var (cell', outcome) := Write(cell, segment);
      && (outcome == WrongSegment ==> cell' == cell)
      && (outcome == InvalidChecksum ==> cell'.file.None? && cell'.row.None?)
      && (outcome == Accepted ==>
            && cell'.file == Some(Kept(cell, segment) + Flatten(segment.data))
            && (cell'.row.Some? <==> segment.id == 0 || cell.row.Some?)
            && (cell'.row.Some? ==> cell'.row.value.lastSegment == segment.id))
  {
    hide Checksum, Flatten;
  }

  /** When a row's seal changes: the last segment sets it to the request's metadata, a first one clears it. */
  lemma WriteSeals(cell: Cell, segment: Segment)
    requires Write(cell, segment).1 == Accepted && Write(cell, segment).0.row.Some?
    ensures Write(cell, segment).0.row.value.seal ==
      if segment.id + 1 == CountSegments(segment.meta.size) then Some(segment.meta)
      else if segment.id == 0 then None
      else cell.row.value.seal
  {
    hide Checksum, Flatten;
  }

  /** In any history, a last segment that is accepted has completed a file with the checksum it promised. */
  lemma {:induction false} AcceptedFilesFit(store: Store, requests: seq<Request>, n: nat)
    requires n < |requests| && requests[n].Upload? && Outcomes(store, requests)[n] == Accepted
    requires requests[n].segment.id + 1 == CountSegments(requests[n].segment.meta.size)
    ensures var cell := At(Run(store, requests[..n + 1]), requests[n].key);
      cell.file.Some? && Checksum(cell.file.value) == requests[n].segment.meta.checksum
  {
    hide Write, Checksum;
    OutcomeAt(store, requests, n);
    var cell := At(Run(store, requests[..n]), requests[n].key);
    InvalidChecksumIff(cell, requests[n].segment);
    InSequenceIff(cell, requests[n].segment);
    WriteLeaves(cell, requests[n].segment);
  }

  lemma {:induction false} OutcomeAt(store: Store, requests: seq<Request>, n: nat)
    requires n < |requests|
    ensures Outcomes(store, requests)[n] == Handle(Run(store, requests[..n]), requests[n]).1
    ensures Run(store, requests[..n + 1]) == Handle(Run(store, requests[..n]), requests[n]).0
  {
    assert requests[..n + 1][..n] == requests[..n];
    if n < |requests| - 1 {
      var init := requests[..|requests| - 1];
      OutcomeAt(store, init, n);
      assert init[..n] == requests[..n] && init[n] == requests[n];
    } else {
      assert requests[..|requests| - 1] == requests[..n];
    }
  }

  /** A file on disk that no row, and hence no probe, mentions. */
  predicate Unlisted(cell: Cell) {
    cell.file.Some? && cell.row.None?
  }

  function BytesOf(cell: Cell): seq<Byte> {
    if cell.file.Some? then cell.file.value else []
  }

  /** A segment 1 that meets a missing row and is not, as a wrong last segment, discarded at once. */
  predicate BeginsInTheMiddle(cell: Cell, segment: Segment) {
    && cell.row.None? && segment.id == 1
    && (CountSegments(segment.meta.size) == 2 ==>
          Checksum(BytesOf(cell) + Flatten(segment.data)) == segment.meta.checksum)
  }

  /** A write leaves an unlisted file exactly if it begins in the middle, or is refused where one was already. */
  lemma LeavesUnlistedFileIff(cell: Cell, segment: Segment)
    ensures Unlisted(Write(cell, segment).0) <==>
      BeginsInTheMiddle(cell, segment) || (Unlisted(cell) && segment.id != 0 && segment.id != 1)
  {}

  /** The same for every request. */
  predicate Unlists(cell: Cell, request: Request) {
    request.Upload? && BeginsInTheMiddle(cell, request.segment)
  }

  predicate Paired(cell: Cell) {
    cell.file.Some? <==> cell.row.Some?
  }

  lemma StepStaysPairedIff(cell: Cell, request: Request)
    requires Paired(cell)
    ensures Paired(Respond(cell, request).0) <==> !Unlists(cell, request)
  {
    if request.Upload? {
      LeavesUnlistedFileIff(cell, request.segment);
    }
  }

  /** After every prefix of the requests. */
  ghost predicate PairedThroughout(store: Store, requests: seq<Request>, key: Key) {
    forall n | 0 <= n <= |requests| :: Paired(At(Run(store, requests[..n]), key))
  }

  ghost predicate NeverUnlists(store: Store, requests: seq<Request>, key: Key) {
    forall n | 0 <= n < |requests| && requests[n].key == key ::
      !Unlists(At(Run(store, requests[..n]), key), requests[n])
  }

  lemma {:induction false} PairedOneMore(store: Store, requests: seq<Request>, key: Key)
    requires requests != []
    ensures PairedThroughout(store, requests, key) <==>
      PairedThroughout(store, requests[..|requests| - 1], key) && Paired(At(Run(store, requests), key))
  {
    hide Run, Paired;
    var init := requests[..|requests| - 1];
    assert requests[..|requests|] == requests;
    assert forall n | 0 <= n < |requests| :: init[..n] == requests[..n];
  }

  lemma NeverUnlistsOneMore(store: Store, requests: seq<Request>, key: Key)
    requires requests != []
    ensures var init, last := requests[..|requests| - 1], requests[|requests| - 1];
      NeverUnlists(store, requests, key) <==>
        NeverUnlists(store, init, key) && !(last.key == key && Unlists(At(Run(store, init), key), last))
  {
    hide Run, Unlists;
    var init := requests[..|requests| - 1];
    assert forall n | 0 <= n < |init| :: init[..n] == requests[..n] && init[n] == requests[n];
  }

  /** File and row of a path stay paired all along a run exactly unless some segment 1 begins in the middle. */
  lemma {:induction false} StaysPairedIff(store: Store, requests: seq<Request>, key: Key)
    requires Paired(At(store, key))
    ensures PairedThroughout(store, requests, key) <==> NeverUnlists(store, requests, key)
  {
    if requests == [] {
      assert requests[..0] == requests;
    } else {
      var init, last := requests[..|requests| - 1], requests[|requests| - 1];
      StaysPairedIff(store, init, key);
      PairedOneMore(store, requests, key);
      NeverUnlistsOneMore(store, requests, key);
      if PairedThroughout(store, init, key) {
        assert init[..|init|] == init;
        if last.key == key {
          StepStaysPairedIff(At(Run(store, init), key), last);
        }
      }
    }
  }

  /** Such a request: one byte as segment 1 of a file that was never begun. */
  lemma SegmentOneIsNotListed(user: string, path: string) returns (request: Request)
    ensures request.key == Key(user, path) && Outcomes(EMPTY_STORE, [request]) == [Accepted]
    ensures var store := Run(EMPTY_STORE, [request]);
      At(store, request.key) == Cell(Some([1]), None) && path !in Probe(store, user)
  {
    request := Upload(Key(user, path), Segment(1, [[1]], NO_METADATA));
    RunOneMore(EMPTY_STORE, [], request);
    assert [] + [request] == [request];
    assert [] + Flatten(request.segment.data) == [1];
    assert Write(EMPTY_CELL, request.segment) == (Cell(Some([1]), None), Accepted);
    ProbeAt(Run(EMPTY_STORE, [request]), user, path);
  }

  // ---------- assembly ----------

  /** The segments accepted for `key` since its latest accepted segment 0, if that was not discarded. */
  function Assembled(store: Store, requests: seq<Request>, key: Key): Option<seq<Segment>> {
    if requests == [] then None
    else
      var init, last := requests[..|requests| - 1], requests[|requests| - 1];
      var before := Assembled(store, init, key);
      if last.key != key then before
      else if last.Discard? then None
      else
        match Handle(Run(store, init), last).1
        case WrongSegment => before
        case InvalidChecksum => None
        case Accepted =>
          if last.segment.id == 0 then Some([last.segment])
          else if before.Some? then Some(before.value + [last.segment])
          else None
  }

  function Payloads(segments: seq<Segment>): seq<seq<Byte>> {
    seq(|segments|, i requires 0 <= i < |segments| => Flatten(segments[i].data))
  }

  /** A row is exactly as good as the accepted segments 0, 1, ..., last_segment that the file consists of. */
  ghost predicate AssembledFrom(cell: Cell, segments: Option<seq<Segment>>) {
    && (cell.row.Some? <==> segments.Some?)
    && (segments.Some? ==>
          && cell.row.value.lastSegment == |segments.value| - 1
          && (forall i | 0 <= i < |segments.value| :: segments.value[i].id == i)
          && cell.file == Some(Flatten(Payloads(segments.value))))
  }

  lemma {:induction false} RowsDescribeAcceptedSegments(store: Store, requests: seq<Request>, key: Key)
    requires At(store, key).row.None?
    ensures AssembledFrom(At(Run(store, requests), key), Assembled(store, requests, key))
  {
    if requests != [] {
      var init, last := requests[..|requests| - 1], requests[|requests| - 1];
      RowsDescribeAcceptedSegments(store, init, key);
      if last.key == key && last.Upload? {
        WriteKeepsAssembly(At(Run(store, init), key), Assembled(store, init, key), last.segment);
      }
    }
  }

  lemma WriteKeepsAssembly(cell: Cell, before: Option<seq<Segment>>, segment: Segment)
    requires AssembledFrom(cell, before)
    ensures Write(cell, segment).1 == Accepted && segment.id == 0 ==>
      AssembledFrom(Write(cell, segment).0, Some([segment]))
    ensures Write(cell, segment).1 == Accepted && segment.id != 0 ==>
      AssembledFrom(Write(cell, segment).0, if before.Some? then Some(before.value + [segment]) else None)
  {
    hide Write, Flatten, CountSegments, Checksum;
    WriteLeaves(cell, segment);
    InSequenceIff(cell, segment);
    FirstPayload(segment);
    if before.Some? {
      NextPayload(before.value, segment);
    }
  }

  lemma FirstPayload(segment: Segment)
    ensures Flatten(Payloads([segment])) == [] + Flatten(segment.data)
  {
    var payload := Flatten(segment.data);
    assert Payloads([segment]) == [] + [payload];
    FlattenAppend([], payload);
  }

  lemma NextPayload(segments: seq<Segment>, segment: Segment)
    ensures Flatten(Payloads(segments + [segment])) == Flatten(Payloads(segments)) + Flatten(segment.data)
  {
    var payload := Flatten(segment.data);
    assert Payloads(segments + [segment]) == Payloads(segments) + [payload];
    FlattenAppend(Payloads(segments), payload);
  }

  // ---------- sealed rows ----------

  /** A row whose sealed size is covered by the segments received so far records the file's checksum. */
  ghost predicate SealIsTrue(cell: Cell) {
    cell.row.Some? && cell.row.value.seal.Some? ==>
      var row := cell.row.value;
      && CountSegments(row.seal.value.size) <= row.lastSegment + 1
      && cell.file.Some?
      && (row.lastSegment + 1 == CountSegments(row.seal.value.size) ==>
            row.seal.value.checksum == Checksum(cell.file.value))
  }

  lemma {:induction false} SealsStayTrue(store: Store, requests: seq<Request>, key: Key)
    requires SealIsTrue(At(store, key))
    ensures SealIsTrue(At(Run(store, requests), key))
  {
    if requests != [] {
      var init, last := requests[..|requests| - 1], requests[|requests| - 1];
      SealsStayTrue(store, init, key);
      if last.key == key && last.Upload? {
        WriteKeepsSealTrue(At(Run(store, init), key), last.segment);
      }
    }
  }

  lemma WriteKeepsSealTrue(cell: Cell, segment: Segment)
    requires SealIsTrue(cell)
    ensures SealIsTrue(Write(cell, segment).0)
    ensures segment.id == 0 && CountSegments(segment.meta.size) != 1 && Write(cell, segment).0.row.Some? ==>
      Write(cell, segment).0.row.value.seal.None?
  {}

  // ---------- interleaving ----------

  /** The requests that concern `key`, in order. */
  function Project(requests: seq<Request>, key: Key): seq<Request> {
    if requests == [] then []
    else
      var init, last := requests[..|requests| - 1], requests[|requests| - 1];
      Project(init, key) + if last.key == key then [last] else []
  }

  /** The outcomes of the requests that concern `key`, in order. */
  function OutcomesAt(store: Store, requests: seq<Request>, key: Key): seq<Outcome> {
    if requests == [] then []
    else
      var init, last := requests[..|requests| - 1], requests[|requests| - 1];
      OutcomesAt(store, init, key) + if last.key == key then [Handle(Run(store, init), last).1] else []
  }

  /** A cell and its clients see only the requests on that cell. */
  lemma {:induction false} RunAtKey(store: Store, requests: seq<Request>, key: Key)
    ensures At(Run(store, requests), key) == At(Run(store, Project(requests, key)), key)
    ensures OutcomesAt(store, requests, key) == Outcomes(store, Project(requests, key))
  {
    if requests != [] {
      var init, last := requests[..|requests| - 1], requests[|requests| - 1];
      RunAtKey(store, init, key);
      if last.key == key {
        var mine := Project(requests, key);
        assert mine[..|mine| - 1] == Project(init, key);
      } else {
        assert Project(requests, key) == Project(init, key);
      }
    }
  }

  lemma EqualProjections(store: Store, a: seq<Request>, b: seq<Request>)
    requires forall key :: Project(a, key) == Project(b, key)
    ensures Run(store, a) == Run(store, b)
    ensures forall key :: OutcomesAt(store, a, key) == OutcomesAt(store, b, key)
  {
    forall key
      ensures At(Run(store, a), key) == At(Run(store, b), key)
      ensures OutcomesAt(store, a, key) == OutcomesAt(store, b, key)
    {
      assert Project(a, key) == Project(b, key);
      RunAtKey(store, a, key);
      RunAtKey(store, b, key);
    }
    SameCells(Run(store, a), Run(store, b));
  }

  /** `merged` interleaves the jobs: it ends with the last request of a job and interleaves the rest. */
  ghost predicate IsMerge(jobs: seq<seq<Request>>, merged: seq<Request>)
    decreases |merged|
  {
    if merged == [] then forall i | 0 <= i < |jobs| :: jobs[i] == []
    else exists i | 0 <= i < |jobs| :: EndsWithJob(jobs, merged, i)
  }

  ghost predicate EndsWithJob(jobs: seq<seq<Request>>, merged: seq<Request>, i: nat)
    requires i < |jobs| && merged != []
    decreases |merged|, 0
  {
    && jobs[i] != []
    && jobs[i][|jobs[i]| - 1] == merged[|merged| - 1]
    && IsMerge(jobs[i := jobs[i][..|jobs[i]| - 1]], merged[..|merged| - 1])
  }

  /** One more request of one job: so every interleaving can be built up, from no requests at all. */
  lemma MergeGrows(jobs: seq<seq<Request>>, merged: seq<Request>, i: nat, request: Request)
    requires IsMerge(jobs, merged) && i < |jobs|
    ensures IsMerge(jobs[i := jobs[i] + [request]], merged + [request])
  {
    var jobs', merged' := jobs[i := jobs[i] + [request]], merged + [request];
    assert merged'[..|merged'| - 1] == merged;
    assert jobs'[i][..|jobs'[i]| - 1] == jobs[i];
    assert jobs'[i := jobs[i]] == jobs;
    assert EndsWithJob(jobs', merged', i);
  }

  lemma NothingMerged(jobs: seq<seq<Request>>)
    requires forall i | 0 <= i < |jobs| :: jobs[i] == []
    ensures IsMerge(jobs, [])
  {}

  /** Job `i` works on `keys[i]` alone, and no two jobs share a key. */
  ghost predicate OnDistinctKeys(jobs: seq<seq<Request>>, keys: seq<Key>) {
    && |jobs| == |keys|
    && (forall i, j | 0 <= i < j < |keys| :: keys[i] != keys[j])
    && (forall i, n | 0 <= i < |jobs| && 0 <= n < |jobs[i]| :: jobs[i][n].key == keys[i])
  }

  /** Each key's requests are those of its job. */
  ghost predicate ProjectsTo(requests: seq<Request>, jobs: seq<seq<Request>>, keys: seq<Key>)
    requires |jobs| == |keys|
  {
    && (forall i | 0 <= i < |jobs| :: Project(requests, keys[i]) == jobs[i])
    && (forall key | key !in keys :: Project(requests, key) == [])
  }

  lemma ProjectLast(requests: seq<Request>, key: Key)
    requires requests != []
    ensures var init, last := requests[..|requests| - 1], requests[|requests| - 1];
      Project(requests, key) == Project(init, key) + if last.key == key then [last] else []
  {}

  lemma {:induction false} MergeProjectsToJobs(jobs: seq<seq<Request>>, keys: seq<Key>, merged: seq<Request>)
    requires OnDistinctKeys(jobs, keys) && IsMerge(jobs, merged)
    ensures ProjectsTo(merged, jobs, keys)
    decreases |merged|
  {
    if merged != [] {
      var i :| 0 <= i < |jobs| && EndsWithJob(jobs, merged, i);
      var init, last := merged[..|merged| - 1], merged[|merged| - 1];
      var job := jobs[i][..|jobs[i]| - 1];
      assert jobs[i] == job + [last] && last.key == keys[i];
      var before := jobs[i := job];
      MergeProjectsToJobs(before, keys, init);
      hide IsMerge, Project;
      forall j | 0 <= j < |jobs|
        ensures Project(merged, keys[j]) == jobs[j]
      {
        ProjectLast(merged, keys[j]);
        assert Project(init, keys[j]) == before[j];
      }
      forall key | key !in keys
        ensures Project(merged, key) == []
      {
        ProjectLast(merged, key);
      }
    }
  }

  /** The jobs one after the other, in the given order. */
  function Sequential(jobs: seq<seq<Request>>, order: seq<nat>): seq<Request>
    requires forall n | 0 <= n < |order| :: order[n] < |jobs|
  {
    if order == [] then []
    else Sequential(jobs, order[..|order| - 1]) + jobs[order[|order| - 1]]
  }

  ghost predicate IsOrder(order: seq<nat>, n: nat) {
    && (forall i | 0 <= i < |order| :: order[i] < n)
    && (forall i, j | 0 <= i < j < |order| :: order[i] != order[j])
    && (forall i | 0 <= i < n :: i in order)
  }

  lemma {:induction false} ProjectConcat(a: seq<Request>, b: seq<Request>, key: Key)
    ensures Project(a + b, key) == Project(a, key) + Project(b, key)
  {
    if b == [] {
      assert a + b == a;
    } else {
      var init := b[..|b| - 1];
      ProjectConcat(a, init, key);
      assert (a + b)[..|a + b| - 1] == a + init;
    }
  }

  lemma {:induction false} ProjectJob(job: seq<Request>, owner: Key, key: Key)
    requires forall n | 0 <= n < |job| :: job[n].key == owner
    ensures Project(job, key) == if key == owner then job else []
  {
    if job != [] {
      ProjectJob(job[..|job| - 1], owner, key);
      assert job == job[..|job| - 1] + [job[|job| - 1]];
    }
  }

  lemma ProjectOneMoreJob(requests: seq<Request>, jobs: seq<seq<Request>>, keys: seq<Key>, i: nat, key: Key)
    requires OnDistinctKeys(jobs, keys) && i < |jobs|
    ensures Project(requests + jobs[i], key) == Project(requests, key) + if keys[i] == key then jobs[i] else []
  {
    ProjectConcat(requests, jobs[i], key);
    ProjectJob(jobs[i], keys[i], key);
  }

  /** What the sequential run does to the key of job `i`, or to a key of none. */
  lemma {:induction false} SequentialProjects(
      jobs: seq<seq<Request>>, keys: seq<Key>, order: seq<nat>, key: Key, owner: Option<nat>)
    requires OnDistinctKeys(jobs, keys) && |jobs| == |keys|
    requires forall n | 0 <= n < |order| :: order[n] < |jobs|
    requires forall i, j | 0 <= i < j < |order| :: order[i] != order[j]
    requires match owner case Some(i) => i < |keys| && keys[i] == key case None => key !in keys
    ensures Project(Sequential(jobs, order), key)
         == if owner.Some? && owner.value in order then jobs[owner.value] else []
  {
    if order != [] {
      hide Project, OnDistinctKeys, Sequential;
      var init, last := order[..|order| - 1], order[|order| - 1];
      assert order == init + [last];
      SequentialProjects(jobs, keys, init, key, owner);
      SequentialStep(jobs, keys, init, last, key, owner);
    }
  }

  lemma {:induction false} SequentialStep(
      jobs: seq<seq<Request>>, keys: seq<Key>, order: seq<nat>, last: nat, key: Key, owner: Option<nat>)
    requires OnDistinctKeys(jobs, keys) && last < |jobs|
    requires forall n | 0 <= n < |order| :: order[n] < |jobs|
    requires match owner case Some(j) => j < |keys| && keys[j] == key case None => key !in keys
    ensures Project(Sequential(jobs, order + [last]), key)
         == Project(Sequential(jobs, order), key) + if owner == Some(last) then jobs[last] else []
  {
    hide Project;
    assert (order + [last])[..|order|] == order;
    ProjectOneMoreJob(Sequential(jobs, order), jobs, keys, last, key);
  }

  /** Any interleaving of jobs on distinct keys ends as if they had run one by one, in any order. */
  lemma InterleavingIsHarmless(
      store: Store, jobs: seq<seq<Request>>, keys: seq<Key>, merged: seq<Request>, order: seq<nat>)
    requires OnDistinctKeys(jobs, keys) && IsMerge(jobs, merged) && IsOrder(order, |jobs|)
    ensures Run(store, merged) == Run(store, Sequential(jobs, order))
    ensures forall key :: OutcomesAt(store, merged, key) == OutcomesAt(store, Sequential(jobs, order), key)
  {
    MergeProjectsToJobs(jobs, keys, merged);
    forall key
      ensures Project(merged, key) == Project(Sequential(jobs, order), key)
    {
      if key in keys {
        var i :| 0 <= i < |keys| && keys[i] == key;
        SequentialProjects(jobs, keys, order, key, Some(i));
        assert i in order;
      } else {
        SequentialProjects(jobs, keys, order, key, None);
      }
    }
    EqualProjections(store, merged, Sequential(jobs, order));
  }
}
