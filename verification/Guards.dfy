/**
 The server's pool of workers and its map of guards under arbitrary requests, at the granularity of
 the critical sections: a guard's constructor asks `has` in one step and calls `add` in another.
 */
module Guards {
  import opened Common

  /** `connection` is the one the worker serves until its final request. */
  datatype Worker =
    | Waiting
    | Serving(connection: nat)
    | Constructing(connection: nat, key: string)  // inside the guard's constructor, before `has`
    | Cleared(connection: nat, key: string)       // `has` returned false, before `add`
    | Holding(connection: nat, key: string)       // the guard lives

  /** `requests` are the accepted connections no worker serves yet; connections are numbered. */
  datatype Server = Server(limit: nat, workers: seq<Worker>, requests: seq<nat>, accepted: nat, keys: set<string>)

  datatype Step =
    | AcceptConnection
    | PopConnection(w: nat)
    | BeginGuarded(w: nat, key: string)
    | AskHas(w: nat)
    | Insert(w: nat)
    | Destroy(w: nat)
    | CloseConnection(w: nat)

  ghost predicate Init(server: Server) {
    && |server.workers| == server.limit
    && (forall w | 0 <= w < |server.workers| :: server.workers[w].Waiting?)
    && server.requests == [] && server.accepted == 0 && server.keys == {}
  }

  /** `add` can proceed at once. */
  predicate NeedNotWait(server: Server, key: string) {
    key in server.keys || |server.keys| < server.limit
  }

  predicate Enabled(server: Server, step: Step) {
    match step
    case AcceptConnection => true
    case PopConnection(w) => w < |server.workers| && server.workers[w].Waiting? && server.requests != []
    case BeginGuarded(w, _) => w < |server.workers| && server.workers[w].Serving?
    case AskHas(w) => w < |server.workers| && server.workers[w].Constructing?
    case Insert(w) => w < |server.workers| && server.workers[w].Cleared? && NeedNotWait(server, server.workers[w].key)
    case Destroy(w) => w < |server.workers| && server.workers[w].Holding?
    case CloseConnection(w) => w < |server.workers| && server.workers[w].Serving?
  }

  function Next(server: Server, step: Step): Server
    requires Enabled(server, step)
  {
    match step
    case AcceptConnection =>
      server.(requests := server.requests + [server.accepted], accepted := server.accepted + 1)
    case PopConnection(w) =>
      server.(workers := server.workers[w := Serving(server.requests[0])], requests := server.requests[1..])
    case BeginGuarded(w, key) =>
      server.(workers := server.workers[w := Constructing(server.workers[w].connection, key)])
    case AskHas(w) =>
      var worker := server.workers[w];
      if worker.key in server.keys then server.(workers := server.workers[w := Serving(worker.connection)])
      else server.(workers := server.workers[w := Cleared(worker.connection, worker.key)])
    case Insert(w) =>
      var worker := server.workers[w];
      server.(
        workers := server.workers[w := Holding(worker.connection, worker.key)],
        keys := server.keys + {worker.key})
    case Destroy(w) =>
      var worker := server.workers[w];
      server.(workers := server.workers[w := Serving(worker.connection)], keys := server.keys - {worker.key})
    case CloseConnection(w) =>
      server.(workers := server.workers[w := Waiting])
  }

  function Run(server: Server, steps: seq<Step>): Option<Server> {
    if steps == [] then Some(server)
    else
      var before := Run(server, steps[..|steps| - 1]);
      if before.Some? && Enabled(before.value, steps[|steps| - 1])
      then Some(Next(before.value, steps[|steps| - 1]))
      else None
  }

  // ---------- the invariant ----------

  /** The keys of live guards. */
  function HeldKeys(workers: seq<Worker>): set<string> {
    if workers == [] then {}
    else
      var init, last := HeldKeys(workers[..|workers| - 1]), workers[|workers| - 1];
      if last.Holding? then init + {last.key} else init
  }

  function Holders(workers: seq<Worker>): nat {
    if workers == [] then 0
    else Holders(workers[..|workers| - 1]) + if workers[|workers| - 1].Holding? then 1 else 0
  }

  /** Connections in service and waiting ones are all different, and the waiting ones are in order of arrival. */
  ghost predicate ConnectionsOk(server: Server) {
    && (forall i, j | 0 <= i < j < |server.requests| :: server.requests[i] < server.requests[j])
    && (forall i | 0 <= i < |server.requests| :: server.requests[i] < server.accepted)
    && (forall w, i | 0 <= w < |server.workers| && !server.workers[w].Waiting? && 0 <= i < |server.requests| ::
          server.workers[w].connection < server.requests[i])
    && (forall w | 0 <= w < |server.workers| && !server.workers[w].Waiting? ::
          server.workers[w].connection < server.accepted)
    && (forall v, w | 0 <= v < w < |server.workers| && !server.workers[v].Waiting? && !server.workers[w].Waiting? ::
          server.workers[v].connection != server.workers[w].connection)
  }

  ghost predicate Inv(server: Server) {
    && |server.workers| == server.limit
    && server.keys <= HeldKeys(server.workers)
    && ConnectionsOk(server)
  }

  lemma {:induction false} HeldKeysMembers(workers: seq<Worker>, key: string)
    ensures key in HeldKeys(workers) <==> exists w :: 0 <= w < |workers| && workers[w].Holding? && workers[w].key == key
  {
    if workers != [] {
      var init, last := workers[..|workers| - 1], workers[|workers| - 1];
      HeldKeysMembers(init, key);
      if last.Holding? && last.key == key {
        assert workers[|workers| - 1].Holding?;
      }
      assert forall w | 0 <= w < |init| :: init[w] == workers[w];
    }
  }

  /** Live guards are at most as many as workers, and fewer when some worker holds none. */
  lemma {:induction false} HeldKeysBound(workers: seq<Worker>)
    ensures |HeldKeys(workers)| <= Holders(workers) <= |workers|
    ensures (exists w :: 0 <= w < |workers| && !workers[w].Holding?) ==> Holders(workers) < |workers|
  {
    if workers != [] {
      var init := workers[..|workers| - 1];
      HeldKeysBound(init);
      assert forall w | 0 <= w < |init| :: init[w] == workers[w];
    }
  }

  lemma SubsetSize(a: set<string>, b: set<string>)
    requires a <= b
    ensures |a| <= |b|
  {
    assert b == a + (b - a);
  }

  /** Changing one worker keeps the other guards alive. */
  lemma HeldKeysUpdate(workers: seq<Worker>, w: nat, worker: Worker, key: string)
    requires w < |workers| && key in HeldKeys(workers)
    requires workers[w].Holding? ==> worker == workers[w] || key != workers[w].key
    ensures key in HeldKeys(workers[w := worker])
  {
    HeldKeysMembers(workers, key);
    HeldKeysMembers(workers[w := worker], key);
    var v :| 0 <= v < |workers| && workers[v].Holding? && workers[v].key == key;
    assert workers[w := worker][v] == if v == w then worker else workers[v];
  }

  /** The map's keys still belong to live guards. */
  lemma NextKeepsHeldKeys(server: Server, step: Step)
    requires server.keys <= HeldKeys(server.workers) && Enabled(server, step)
    ensures Next(server, step).keys <= HeldKeys(Next(server, step).workers)
  {
    if !step.AcceptConnection? {
      var w, server' := step.w, Next(server, step);
      forall key | key in server'.keys
        ensures key in HeldKeys(server'.workers)
      {
        if key in server.keys {
          HeldKeysUpdate(server.workers, w, server'.workers[w], key);
        } else {
          HeldKeysMembers(server'.workers, key);
          assert server'.workers[w].Holding?;
        }
      }
    }
  }

  /** A step that leaves the list of connections alone and the worker with its connection, if any. */
  lemma WorkerKeepsConnections(server: Server, server': Server, w: nat)
    requires ConnectionsOk(server) && w < |server.workers|
    requires server'.requests == server.requests && server'.accepted == server.accepted
    requires |server'.workers| == |server.workers|
    requires forall v | 0 <= v < |server.workers| && v != w :: server'.workers[v] == server.workers[v]
    requires !server'.workers[w].Waiting? ==>
      !server.workers[w].Waiting? && server'.workers[w].connection == server.workers[w].connection
    ensures ConnectionsOk(server')
  {}

  lemma PopKeepsConnections(server: Server, w: nat)
    requires ConnectionsOk(server) && Enabled(server, PopConnection(w))
    ensures ConnectionsOk(Next(server, PopConnection(w)))
  {
    var server' := Next(server, PopConnection(w));
    assert forall i | 0 <= i < |server'.requests| :: server'.requests[i] == server.requests[i + 1];
    assert forall v | 0 <= v < |server.workers| && v != w :: server'.workers[v] == server.workers[v];
  }

  lemma AcceptKeepsConnections(server: Server)
    requires ConnectionsOk(server)
    ensures ConnectionsOk(Next(server, AcceptConnection))
  {
    var server' := Next(server, AcceptConnection);
    assert forall i | 0 <= i < |server.requests| :: server'.requests[i] == server.requests[i];
  }

  lemma NextKeepsInv(server: Server, step: Step)
    requires Inv(server) && Enabled(server, step)
    ensures Inv(Next(server, step))
  {
    hide ConnectionsOk, HeldKeys;
    NextKeepsHeldKeys(server, step);
    match step
    case AcceptConnection => AcceptKeepsConnections(server);
    case PopConnection(w) => PopKeepsConnections(server, w);
    case BeginGuarded(w, _) => WorkerKeepsConnections(server, Next(server, step), w);
    case AskHas(w) => WorkerKeepsConnections(server, Next(server, step), w);
    case Insert(w) => WorkerKeepsConnections(server, Next(server, step), w);
    case Destroy(w) => WorkerKeepsConnections(server, Next(server, step), w);
    case CloseConnection(w) => WorkerKeepsConnections(server, Next(server, step), w);
  }

  lemma {:induction false} RunKeepsInv(server: Server, steps: seq<Step>)
    requires Init(server) && Run(server, steps).Some?
    ensures Inv(Run(server, steps).value)
  {
    if steps != [] {
      hide Inv, Enabled, Next, Init;
      assert Run(server, steps[..|steps| - 1]).Some?;
      RunKeepsInv(server, steps[..|steps| - 1]);
      NextKeepsInv(Run(server, steps[..|steps| - 1]).value, steps[|steps| - 1]);
    }
  }

  /** In every run the map's keys belong to live guards, it never exceeds the limit, and `add` never waits. */
  lemma GuardsNeverBlock(server: Server, steps: seq<Step>)
    requires Init(server) && Run(server, steps).Some?
    ensures var server' := Run(server, steps).value;
      && server'.keys <= HeldKeys(server'.workers)
      && |server'.keys| <= server'.limit
      && (forall w | 0 <= w < |server'.workers| && server'.workers[w].Cleared? ::
            |server'.keys| < server'.limit && Enabled(server', Insert(w)))
      && ConnectionsOk(server')
  {
    RunKeepsInv(server, steps);
    var server' := Run(server, steps).value;
    HeldKeysBound(server'.workers);
    SubsetSize(server'.keys, HeldKeys(server'.workers));
  }

  // ---------- exclusion ----------

  /** No two live guards share a key, and the map holds the keys of exactly the live ones. */
  ghost predicate Exclusive(server: Server) {
    && (forall v, w | 0 <= v < w < |server.workers| && server.workers[v].Holding? && server.workers[w].Holding? ::
          server.workers[v].key != server.workers[w].key)
    && server.keys == HeldKeys(server.workers)
  }

  /** `has` and `add` being two steps, exclusion lasts exactly until an `add` finds its key already there. */
  lemma ExclusionLostIff(server: Server, step: Step)
    requires Exclusive(server) && Enabled(server, step)
    ensures !Exclusive(Next(server, step)) <==> step.Insert? && server.workers[step.w].key in server.keys
  {
    var server' := Next(server, step);
    if step.Insert? && server.workers[step.w].key in server.keys {
      var key := server.workers[step.w].key;
      HeldKeysMembers(server.workers, key);
      var v :| 0 <= v < |server.workers| && server.workers[v].Holding? && server.workers[v].key == key;
      assert server'.workers[v].key == server'.workers[step.w].key;
      assert !Exclusive(server') by {
        if v < step.w {
          assert server'.workers[v].Holding? && server'.workers[step.w].Holding?;
        } else {
          assert server'.workers[step.w].Holding? && server'.workers[v].Holding?;
        }
      }
    } else if !step.AcceptConnection? {
      ExclusionKept(server, step);
    }
  }

  lemma ExclusionKept(server: Server, step: Step)
    requires Exclusive(server) && Enabled(server, step) && !step.AcceptConnection?
    requires !(step.Insert? && server.workers[step.w].key in server.keys)
    ensures Exclusive(Next(server, step))
  {
    var server' := Next(server, step);
    var w := step.w;
    forall key
      ensures key in server'.keys <==> key in HeldKeys(server'.workers)
    {
      HeldKeysMembers(server.workers, key);
      HeldKeysMembers(server'.workers, key);
      if key in server.keys {
        var v :| 0 <= v < |server.workers| && server.workers[v].Holding? && server.workers[v].key == key;
        assert v != w ==> server'.workers[v] == server.workers[v];
      }
      if key in HeldKeys(server'.workers) {
        var v :| 0 <= v < |server'.workers| && server'.workers[v].Holding? && server'.workers[v].key == key;
        assert v != w ==> server.workers[v].Holding? && server.workers[v].key == key;
      }
      if step.Insert? && key == server.workers[w].key {
        assert server'.workers[w].Holding?;
      }
    }
    if step.Insert? {
      var key := server.workers[w].key;
      HeldKeysMembers(server.workers, key);
      assert forall v | 0 <= v < |server.workers| && server.workers[v].Holding? :: server.workers[v].key != key;
    }
  }

  /** The worker has asked for the key, was not refused, and has not given it up again. */
  predicate Contends(worker: Worker, key: string) {
    (worker.Cleared? || worker.Holding?) && worker.key == key
  }

  /** No two workers contend for a key, and the map holds the keys of exactly the live guards. */
  ghost predicate Undisputed(server: Server) {
    && (forall v, w, key | 0 <= v < |server.workers| && 0 <= w < |server.workers|
                        && Contends(server.workers[v], key) && Contends(server.workers[w], key) :: v == w)
    && (forall key :: key in server.keys <==> HeldBySome(server.workers, key))
  }

  ghost predicate HeldBySome(workers: seq<Worker>, key: string) {
    exists w :: 0 <= w < |workers| && workers[w].Holding? && workers[w].key == key
  }

  /** Two workers have asked for the same key before either had it. */
  ghost predicate TwoCleared(server: Server) {
    exists v, w :: 0 <= v < w < |server.workers| && server.workers[v].Cleared? && server.workers[w].Cleared?
                && server.workers[v].key == server.workers[w].key
  }

  lemma NextKeepsUndisputed(server: Server, step: Step)
    requires Undisputed(server) && Enabled(server, step) && !TwoCleared(Next(server, step))
    ensures Undisputed(Next(server, step))
  {
    var server' := Next(server, step);
    if !step.AcceptConnection? {
      var w := step.w;
      assert forall v | 0 <= v < |server.workers| && v != w :: server'.workers[v] == server.workers[v];
      forall u, v, key | 0 <= u < |server'.workers| && 0 <= v < |server'.workers|
                      && Contends(server'.workers[u], key) && Contends(server'.workers[v], key)
        ensures u == v
      {
        if u != v && (u == w || v == w) {
          NoNewRival(server, step, if u == w then v else u, key);
        }
      }
      forall key
        ensures key in server'.keys <==> HeldBySome(server'.workers, key)
      {
        KeyStaysHeld(server, step, key);
      }
    }
  }

  lemma NoNewRival(server: Server, step: Step, v: nat, key: string)
    requires Undisputed(server) && Enabled(server, step) && !TwoCleared(Next(server, step))
    requires !step.AcceptConnection? && v < |server.workers| && v != step.w
    requires Contends(Next(server, step).workers[step.w], key)
    ensures !Contends(server.workers[v], key)
  {
    var w, server' := step.w, Next(server, step);
    assert server'.workers[v] == server.workers[v];
    assert server.workers[v].Holding? && server.workers[v].key == key ==> HeldBySome(server.workers, key);
    assert server'.workers[v].Cleared? && server'.workers[v].key == key ==> !server'.workers[w].Cleared?;
  }

  lemma KeyStaysHeld(server: Server, step: Step, key: string)
    requires Undisputed(server) && Enabled(server, step) && !step.AcceptConnection?
    ensures key in Next(server, step).keys <==> HeldBySome(Next(server, step).workers, key)
  {
    var w, server' := step.w, Next(server, step);
    assert forall v | 0 <= v < |server.workers| && v != w :: server'.workers[v] == server.workers[v];
    if HeldBySome(server.workers, key) {
      var v :| 0 <= v < |server.workers| && server.workers[v].Holding? && server.workers[v].key == key;
      assert v != w ==> server'.workers[v].Holding? && server'.workers[v].key == key;
      assert v != w && step.Destroy? ==> !Contends(server.workers[w], key);
    }
    if HeldBySome(server'.workers, key) {
      var v :| 0 <= v < |server'.workers| && server'.workers[v].Holding? && server'.workers[v].key == key;
      assert v != w ==> server.workers[v].Holding? && server.workers[v].key == key;
      assert v != w && step.Destroy? && server.workers[w].key == key ==> Contends(server.workers[w], key);
      assert v != w ==> Contends(server.workers[v], key);
    }
    if step.Insert? && server.workers[w].key == key {
      assert server'.workers[w].Holding?;
    }
  }

  ghost predicate NeverTwoCleared(server: Server, steps: seq<Step>) {
    && (Run(server, steps).Some? ==> !TwoCleared(Run(server, steps).value))
    && (steps != [] ==> NeverTwoCleared(server, steps[..|steps| - 1]))
  }

  /**
   In every run guards exclude each other, and the map knows every live guard, unless at some moment two
   workers have asked for the same key and neither has it yet.
   */
  lemma {:induction false} GuardsExclude(server: Server, steps: seq<Step>)
    requires Init(server) && Run(server, steps).Some? && NeverTwoCleared(server, steps)
    ensures Undisputed(Run(server, steps).value)
  {
    hide Undisputed, TwoCleared, Enabled, Next, Init;
    if steps == [] {
      InitUndisputed(server);
    } else {
      GuardsExclude(server, steps[..|steps| - 1]);
      NextKeepsUndisputed(Run(server, steps[..|steps| - 1]).value, steps[|steps| - 1]);
    }
  }

  lemma InitUndisputed(server: Server)
    requires Init(server)
    ensures Undisputed(server)
  {}

  /** Then a worker that asks while another one holds its key is refused: it goes back to its connection. */
  lemma {:induction false} AskingIsRefused(server: Server, steps: seq<Step>, v: nat, w: nat)
    requires Init(server) && Run(server, steps).Some? && NeverTwoCleared(server, steps)
    requires v < |Run(server, steps).value.workers| && Run(server, steps).value.workers[v].Holding?
    requires w < |Run(server, steps).value.workers| && Run(server, steps).value.workers[w].Constructing?
    requires Run(server, steps).value.workers[v].key == Run(server, steps).value.workers[w].key
    ensures var server' := Run(server, steps).value;
      && Enabled(server', AskHas(w))
      && Next(server', AskHas(w)).workers[w] == Serving(server'.workers[w].connection)
      && Next(server', AskHas(w)).keys == server'.keys
  {
    hide Run;
    GuardsExclude(server, steps);
    var server' := Run(server, steps).value;
    assert HeldBySome(server'.workers, server'.workers[w].key);
  }

  /** Such an `add` can happen: two workers ask `has` before either calls `add`. */
  lemma TwoGuardsForOneKey(key: string) returns (server: Server, steps: seq<Step>)
    ensures Init(server) && Run(server, steps).Some?
    ensures var workers := Run(server, steps).value.workers;
      |workers| == 2 && workers[0].Holding? && workers[1].Holding? && workers[0].key == workers[1].key == key
  {
    hide Run;
    server := Server(2, [Waiting, Waiting], [], 0, {});
    var state;
    steps, state := TwoRequestsForOneKey(server, key);
    steps, state := RunStep(server, steps, state, AskHas(0));
    steps, state := RunStep(server, steps, state, AskHas(1));
    assert state.workers == [Cleared(0, key), Cleared(1, key)];
    steps, state := RunStep(server, steps, state, Insert(0));
    steps, state := RunStep(server, steps, state, Insert(1));
    assert state.workers == [Holding(0, key), Holding(1, key)];
  }

  lemma TwoRequestsForOneKey(server: Server, key: string) returns (steps: seq<Step>, state: Server)
    requires server == Server(2, [Waiting, Waiting], [], 0, {})
    ensures Run(server, steps) == Some(state)
    ensures state == Server(2, [Constructing(0, key), Constructing(1, key)], [], 2, {})
  {
    hide Run;
    steps, state := [], server;
    NoStepRun(server);
    steps, state := RunStep(server, steps, state, AcceptConnection);
    steps, state := RunStep(server, steps, state, AcceptConnection);
    assert state.requests == [0, 1];
    steps, state := RunStep(server, steps, state, PopConnection(0));
    steps, state := RunStep(server, steps, state, PopConnection(1));
    assert state.workers == [Serving(0), Serving(1)] && state.requests == [];
    steps, state := RunStep(server, steps, state, BeginGuarded(0, key));
    steps, state := RunStep(server, steps, state, BeginGuarded(1, key));
    assert state.workers == [Constructing(0, key), Constructing(1, key)];
  }

  lemma NoStepRun(server: Server)
    ensures Run(server, []) == Some(server)
  {}

  lemma RunStep(server: Server, steps: seq<Step>, before: Server, step: Step) returns (steps': seq<Step>, after: Server)
    requires Run(server, steps) == Some(before) && Enabled(before, step)
    ensures steps' == steps + [step] && after == Next(before, step) && Run(server, steps') == Some(after)
  {
    steps', after := steps + [step], Next(before, step);
    assert steps'[..|steps|] == steps;
  }

  // ---------- all workers at work ----------

  /** Any number of workers can hold guards at once, for different keys, one connection each. */
  lemma {:induction false} AllWorkersCanHold(server: Server, keys: seq<string>, n: nat)
      returns (steps: seq<Step>, state: Server)
    requires Init(server) && |keys| == server.limit && n <= |keys|
    requires forall i, j | 0 <= i < j < |keys| :: keys[i] != keys[j]
    ensures Run(server, steps) == Some(state)
    ensures state.requests == [] && state.limit == server.limit && |state.workers| == server.limit
    ensures state.accepted == n && state.keys == set k | k in keys[..n]
    ensures forall w | 0 <= w < |state.workers| ::
      state.workers[w] == if w < n then Holding(w, keys[w]) else Waiting
  {
    hide Run;
    if n == 0 {
      steps, state := [], server;
      NoStepRun(server);
    } else {
      var before;
      steps, before := AllWorkersCanHold(server, keys, n - 1);
      hide Enabled, Next;
      var w, key := n - 1, keys[n - 1];
      FewKeys(keys[..w]);
      steps, state := ConnectionServed(server, steps, before, w, key);
      assert keys[..n] == keys[..w] + [key];
    }
  }

  /** A connection arrives, and a waiting worker serves it up to its guard. */
  lemma ConnectionServed(server: Server, steps: seq<Step>, state: Server, w: nat, key: string)
      returns (steps': seq<Step>, state': Server)
    requires Run(server, steps) == Some(state)
    requires w < |state.workers| && state.workers[w].Waiting? && state.requests == []
    requires key !in state.keys && |state.keys| < state.limit
    ensures Run(server, steps') == Some(state')
    ensures state' == state.(
      workers := state.workers[w := Holding(state.accepted, key)],
      accepted := state.accepted + 1,
      keys := state.keys + {key})
  {
    hide Run;
    var connection := state.accepted;
    steps', state' := RunStep(server, steps, state, AcceptConnection);
    assert state'.requests == [connection];
    steps', state' := RunStep(server, steps', state', PopConnection(w));
    assert state'.workers == state.workers[w := Serving(connection)] && state'.requests == [];
    steps', state' := RunStep(server, steps', state', BeginGuarded(w, key));
    steps', state' := GuardAcquired(server, steps', state', w, key);
    assert state'.workers == state.workers[w := Holding(connection, key)];
  }

  lemma {:induction false} FewKeys(keys: seq<string>)
    ensures |set k | k in keys| <= |keys|
  {
    if keys != [] {
      var init, last := keys[..|keys| - 1], keys[|keys| - 1];
      FewKeys(init);
      assert (set k | k in keys) == (set k | k in init) + {last};
    }
  }

  lemma GuardAcquired(server: Server, steps: seq<Step>, state: Server, w: nat, key: string)
      returns (steps': seq<Step>, state': Server)
    requires Run(server, steps) == Some(state)
    requires w < |state.workers| && state.workers[w].Constructing? && state.workers[w].key == key
    requires key !in state.keys && |state.keys| < state.limit
    ensures Run(server, steps') == Some(state')
    ensures state' == state.(
      workers := state.workers[w := Holding(state.workers[w].connection, key)], keys := state.keys + {key})
  {
    hide Run;
    steps', state' := RunStep(server, steps, state, AskHas(w));
    steps', state' := RunStep(server, steps', state', Insert(w));
  }

  /** A worker that holds a guard can finish with it and its connection, and serve the next one. */
  lemma WorkerServesNext(server: Server, steps: seq<Step>, state: Server, w: nat)
      returns (steps': seq<Step>, state': Server)
    requires Run(server, steps) == Some(state)
    requires w < |state.workers| && state.workers[w].Holding?
    ensures Run(server, steps') == Some(state')
    ensures state'.keys == state.keys - {state.workers[w].key} && |state'.workers| == |state.workers|
    ensures state'.workers[w] ==
      Serving(if state.requests == [] then state.accepted else state.requests[0])
  {
    hide Run;
    steps', state' := RunStep(server, steps, state, Destroy(w));
    steps', state' := RunStep(server, steps', state', CloseConnection(w));
    steps', state' := RunStep(server, steps', state', AcceptConnection);
    steps', state' := RunStep(server, steps', state', PopConnection(w));
  }
}
