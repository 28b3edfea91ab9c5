/** Exclusion at the server: the requests of senders and the stray ones compete for the guards of their paths. */
module BackupExclusion {
  import opened Segments
  import opened ServerStore
  import opened QueueSpec
  import opened BackupSystem
  import opened BackupInvariant

  /** A request at the server: that a sender waits for, or a stray one. */
  datatype Place = OfSender(s: nat) | AtStray(k: nat)

  /** It has asked for the guard of the path and was not refused, and has no guard yet. */
  predicate HasAsked(sys: System, place: Place, path: string) {
    match place
    case OfSender(s) =>
      s < |sys.senders| && sys.senders[s].Busy? && sys.senders[s].job.path == path && sys.senders[s].stage.Checked?
    case AtStray(k) =>
      k < |sys.strays| && sys.strays[k].request.key.path == path && sys.strays[k].phase.Admitted?
  }

  /** It has the guard. */
  predicate HasGuard(sys: System, place: Place, path: string) {
    match place
    case OfSender(s) =>
      && s < |sys.senders| && sys.senders[s].Busy? && sys.senders[s].job.path == path
      && (sys.senders[s].stage.Guarded? || sys.senders[s].stage.Executed?)
    case AtStray(k) =>
      && k < |sys.strays| && sys.strays[k].request.key.path == path
      && (sys.strays[k].phase.Guarding? || sys.strays[k].phase.Performed?)
  }

  predicate Contends(sys: System, place: Place, path: string) {
    HasAsked(sys, place, path) || HasGuard(sys, place, path)
  }

  ghost predicate GuardedBySome(sys: System, path: string) {
    exists place :: HasGuard(sys, place, path)
  }

  /** At most one request contends for the path, and the server's map says exactly whether one has the guard. */
  ghost predicate Undisputed(sys: System, path: string) {
    && (forall a, b | Contends(sys, a, path) && Contends(sys, b, path) :: a == b)
    && (Token(sys.user, path) in sys.svc <==> GuardedBySome(sys, path))
  }

  /** Two requests have asked for the guard before either had it. */
  ghost predicate TwoHaveAsked(sys: System, path: string) {
    exists a, b :: a != b && HasAsked(sys, a, path) && HasAsked(sys, b, path)
  }

  ghost predicate NeverTwoHaveAsked(sys: System, actions: seq<Action>, path: string) {
    && (Run(sys, actions).Some? ==> !TwoHaveAsked(Run(sys, actions).value, path))
    && (actions != [] ==> NeverTwoHaveAsked(sys, actions[..|actions| - 1], path))
  }

  // ---------- one step ----------

  /** Where a request was before the step: a broken connection turns a sender's request into a stray one. */
  function Origin(sys: System, action: Action, place: Place): Place {
    if action.Act? && action.move.BreakConnection? && place == AtStray(|sys.strays|) then OfSender(action.s) else place
  }

  /** The request that asks for its guard in this step, if any. */
  predicate Asks(action: Action, place: Place) {
    || (action.Act? && action.move.CheckGuard? && place == OfSender(action.s))
    || (action.RunOn? && place == AtStray(action.k))
  }

  /** The request that may get its guard in this step. */
  predicate Enters(action: Action, place: Place) {
    || (action.Act? && action.move.TakeGuard? && place == OfSender(action.s))
    || (action.RunOn? && place == AtStray(action.k))
  }

  /** The request that may give its guard up in this step. */
  predicate Leaves(action: Action, place: Place) {
    || (action.Act? && action.move.ReleaseGuard? && place == OfSender(action.s))
    || (action.RunOn? && place == AtStray(action.k))
  }

  /** Where a request is after the step. */
  function Successor(sys: System, action: Action, place: Place): Place {
    if action.Act? && action.move.BreakConnection? && place == OfSender(action.s) then AtStray(|sys.strays|) else place
  }

  /** What happens to a request that has the guard. */
  ghost predicate GoesTo(sys: System, action: Action, place: Place, path: string)
    requires Enabled(sys, action)
  {
    var sys', token := Next(sys, action), Token(sys.user, path);
    HasGuard(sys, place, path) ==>
      if HasGuard(sys', Successor(sys, action, place), path) then !Leaves(action, place) || action.RunOn?
      else Leaves(action, place) && token !in sys'.svc
  }

  /** The map changes only by requests that get or give up their guards. */
  ghost predicate TokenFollows(sys: System, action: Action, path: string)
    requires Enabled(sys, action)
  {
    var sys', token := Next(sys, action), Token(sys.user, path);
    && sys'.user == sys.user
    && (token in sys'.svc && token !in sys.svc ==> exists place :: Enters(action, place) && HasGuard(sys', place, path))
    && (token in sys.svc && token !in sys'.svc ==>
          exists place :: Leaves(action, place) && HasGuard(sys, place, path) && !HasGuard(sys', place, path))
    && (forall place :: HasGuard(sys', place, path) && !HasGuard(sys, Origin(sys, action, place), path) ==>
          Enters(action, place) && token in sys'.svc)
  }

  /** Where a step takes a request that contends afterwards. */
  ghost predicate CameFrom(sys: System, action: Action, place: Place, path: string)
    requires Enabled(sys, action)
  {
    var sys', origin := Next(sys, action), Origin(sys, action, place);
    && (HasGuard(sys', place, path) ==> Contends(sys, origin, path))
    && (HasAsked(sys', place, path) ==>
          HasAsked(sys, origin, path)
          || (Asks(action, place) && origin == place && Token(sys.user, path) !in sys.svc
              && !Contends(sys, place, path)))
  }

  lemma StrayCameFrom(sys: System, k: nat, place: Place, path: string)
    requires Enabled(sys, RunOn(k))
    ensures CameFrom(sys, RunOn(k), place, path)
  {
    hide Handle;
  }

  lemma TakeOrAddCameFrom(sys: System, action: Action, place: Place, path: string)
    requires Enabled(sys, action) && (action.AddOp? || action.Take?)
    ensures CameFrom(sys, action, place, path)
  {
    hide QueueSpec.Add, QueueSpec.Get, QueueSpec.FirstReady, StrayAtWork;
  }

  /** How a move changes the stages that matter here. */
  ghost predicate StageMoves(sys: System, s: nat, move: Move)
    requires s < |sys.senders| && sys.senders[s].Busy? && CanMove(sys.queue, sys.senders[s], move)
  {
    var sys', before := Moved(sys, s, move), sys.senders[s];
    var token := Token(sys.user, before.job.path);
    && sys'.user == sys.user
    && |sys'.senders| == |sys.senders|
    && (forall t | 0 <= t < |sys.senders| && t != s :: sys'.senders[t] == sys.senders[t])
    && (sys'.senders[s].Busy? ==> sys'.senders[s].job == before.job)
    && (move.BreakConnection? ==>
          && |sys'.strays| == |sys.strays| + 1 && sys'.strays[..|sys.strays|] == sys.strays
          && sys'.strays[|sys.strays|].request.key.path == before.job.path
          && sys'.strays[|sys.strays|].phase == PhaseOf(before.stage))
    && (!move.BreakConnection? ==> sys'.strays == sys.strays)
    && (sys'.senders[s].Busy? ==>
          && (sys'.senders[s].stage.Checked? ==> move.CheckGuard? && token !in sys.svc)
          && (sys'.senders[s].stage.Guarded? ==> move.TakeGuard? && before.stage.Checked?)
          && (sys'.senders[s].stage.Executed? ==> move.Execute? && before.stage.Guarded?))
    && (before.stage.Guarded? || before.stage.Executed? ==>
          || move.ReleaseGuard? || move.BreakConnection?
          || (sys'.senders[s].Busy? && (sys'.senders[s].stage.Guarded? || sys'.senders[s].stage.Executed?)))
    && sys'.svc == (if move.TakeGuard? then sys.svc + {token} else if move.ReleaseGuard? then sys.svc - {token}
                    else sys.svc)
    && (move.TakeGuard? ==> sys'.senders[s].Busy? && sys'.senders[s].stage.Guarded?)
    && (move.CheckGuard? ==> before.stage.Sent?)
    && (move.ReleaseGuard? ==> before.stage.Executed?)
  }

  lemma MovesStages(sys: System, s: nat, move: Move)
    requires s < |sys.senders| && sys.senders[s].Busy? && CanMove(sys.queue, sys.senders[s], move)
    ensures StageMoves(sys, s, move)
  {
    hide SegmentFits, AbortFlag, SegmentLength, Requests, QueueSpec.Remove, QueueSpec.Free, Handle;
  }

  lemma MoveCameFrom(sys: System, s: nat, move: Move, place: Place, path: string)
    requires Enabled(sys, Act(s, move))
    ensures CameFrom(sys, Act(s, move), place, path)
  {
    MovesStages(sys, s, move);
    hide Moved, CanMove;
  }

  lemma AllCameFrom(sys: System, action: Action, place: Place, path: string)
    requires Enabled(sys, action)
    ensures CameFrom(sys, action, place, path)
  {
    hide CameFrom, Enabled;
    match action
    case AddOp(_, _, _) => TakeOrAddCameFrom(sys, action, place, path);
    case Take(_) => TakeOrAddCameFrom(sys, action, place, path);
    case Act(s, move) => MoveCameFrom(sys, s, move, place, path);
    case RunOn(k) => StrayCameFrom(sys, k, place, path);
  }

  // ---------- the guards and the map ----------

  lemma MoveGoesTo(sys: System, s: nat, move: Move, place: Place, path: string)
    requires Enabled(sys, Act(s, move))
    ensures GoesTo(sys, Act(s, move), place, path)
  {
    MovesStages(sys, s, move);
    hide Moved, CanMove;
  }

  lemma StrayGoesTo(sys: System, k: nat, place: Place, path: string)
    requires Enabled(sys, RunOn(k))
    ensures GoesTo(sys, RunOn(k), place, path)
  {
    hide Handle;
  }

  lemma TakeOrAddGoesTo(sys: System, action: Action, place: Place, path: string)
    requires Enabled(sys, action) && (action.AddOp? || action.Take?)
    ensures GoesTo(sys, action, place, path)
  {
    hide QueueSpec.Add, QueueSpec.Get, QueueSpec.FirstReady, StrayAtWork;
  }

  lemma AllGoTo(sys: System, action: Action, place: Place, path: string)
    requires Enabled(sys, action)
    ensures GoesTo(sys, action, place, path)
  {
    hide GoesTo, Enabled;
    match action
    case AddOp(_, _, _) => TakeOrAddGoesTo(sys, action, place, path);
    case Take(_) => TakeOrAddGoesTo(sys, action, place, path);
    case Act(s, move) => MoveGoesTo(sys, s, move, place, path);
    case RunOn(k) => StrayGoesTo(sys, k, place, path);
  }

  lemma MoveTokenFollows(sys: System, s: nat, move: Move, path: string)
    requires Enabled(sys, Act(s, move))
    ensures TokenFollows(sys, Act(s, move), path)
  {
    MovesStages(sys, s, move);
    var job, sys' := sys.senders[s].job, Moved(sys, s, move);
    hide Moved, CanMove, Token;
    forall place | HasGuard(sys', place, path) && !HasGuard(sys, Origin(sys, Act(s, move), place), path)
      ensures Enters(Act(s, move), place) && Token(sys.user, path) in sys'.svc
    {
      MoveEnters(sys, s, move, place, path);
    }
    if Token(sys.user, job.path) == Token(sys.user, path) {
      TokenInjective(sys.user, job.path, path);
    }
    if move.TakeGuard? && job.path == path {
      assert Enters(Act(s, move), OfSender(s)) && HasGuard(sys', OfSender(s), path);
    }
    if move.ReleaseGuard? && job.path == path {
      assert Leaves(Act(s, move), OfSender(s)) && HasGuard(sys, OfSender(s), path)
          && !HasGuard(sys', OfSender(s), path);
    }
  }

  lemma MoveEnters(sys: System, s: nat, move: Move, place: Place, path: string)
    requires Enabled(sys, Act(s, move))
    requires HasGuard(Next(sys, Act(s, move)), place, path)
    requires !HasGuard(sys, Origin(sys, Act(s, move), place), path)
    ensures Enters(Act(s, move), place) && Token(sys.user, path) in Next(sys, Act(s, move)).svc
  {
    MovesStages(sys, s, move);
    hide Moved, CanMove, Token;
  }

  lemma StrayTokenFollows(sys: System, k: nat, path: string)
    requires Enabled(sys, RunOn(k))
    ensures TokenFollows(sys, RunOn(k), path)
  {
    hide Handle;
    var stray, sys' := sys.strays[k], RanOn(sys, k);
    if Token(sys.user, stray.request.key.path) == Token(sys.user, path) {
      TokenInjective(sys.user, stray.request.key.path, path);
    }
    if stray.phase.Admitted? && stray.request.key.path == path {
      assert Enters(RunOn(k), AtStray(k)) && HasGuard(sys', AtStray(k), path);
    }
    if stray.phase.Performed? && stray.request.key.path == path {
      assert Leaves(RunOn(k), AtStray(k)) && HasGuard(sys, AtStray(k), path) && !HasGuard(sys', AtStray(k), path);
    }
  }

  lemma TakeOrAddTokenFollows(sys: System, action: Action, path: string)
    requires Enabled(sys, action) && (action.AddOp? || action.Take?)
    ensures TokenFollows(sys, action, path)
  {
    hide QueueSpec.Add, QueueSpec.Get, QueueSpec.FirstReady, StrayAtWork;
  }

  lemma TokensFollow(sys: System, action: Action, path: string)
    requires Enabled(sys, action)
    ensures TokenFollows(sys, action, path)
  {
    hide TokenFollows, Enabled;
    match action
    case AddOp(_, _, _) => TakeOrAddTokenFollows(sys, action, path);
    case Take(_) => TakeOrAddTokenFollows(sys, action, path);
    case Act(s, move) => MoveTokenFollows(sys, s, move, path);
    case RunOn(k) => StrayTokenFollows(sys, k, path);
  }

  // ---------- exclusion ----------

  lemma NextKeepsContenders(sys: System, action: Action, path: string, a: Place, b: Place)
    requires Undisputed(sys, path) && Enabled(sys, action) && !TwoHaveAsked(Next(sys, action), path)
    requires Contends(Next(sys, action), a, path) && Contends(Next(sys, action), b, path)
    ensures a == b
  {
    hide Enabled, Next, HasAsked, HasGuard;
    AllCameFrom(sys, action, a, path);
    AllCameFrom(sys, action, b, path);
    BrokenDoesNotContend(sys, action, a, path);
    BrokenDoesNotContend(sys, action, b, path);
    if !Contends(sys, Origin(sys, action, a), path) {
      NewcomerIsAlone(sys, action, path, a, b);
    } else if !Contends(sys, Origin(sys, action, b), path) {
      NewcomerIsAlone(sys, action, path, b, a);
    }
  }

  /** A request that asks without being refused finds nobody else contending. */
  lemma NewcomerIsAlone(sys: System, action: Action, path: string, a: Place, b: Place)
    requires Undisputed(sys, path) && Enabled(sys, action) && !TwoHaveAsked(Next(sys, action), path)
    requires Contends(Next(sys, action), a, path) && Contends(Next(sys, action), b, path)
    requires !Contends(sys, Origin(sys, action, a), path)
    ensures a == b
  {
    hide Enabled, Next, HasAsked, HasGuard;
    AllCameFrom(sys, action, a, path);
    AllCameFrom(sys, action, b, path);
    TokensFollow(sys, action, path);
    assert HasAsked(Next(sys, action), a, path) && Asks(action, a);
    if HasGuard(Next(sys, action), b, path) {
      assert HasGuard(sys, Origin(sys, action, b), path) ==> GuardedBySome(sys, path);
      assert Enters(action, b);
    }
  }

  /** A sender whose connection broke contends no more: the stray request does in its place. */
  lemma BrokenDoesNotContend(sys: System, action: Action, place: Place, path: string)
    requires Enabled(sys, action) && Contends(Next(sys, action), place, path)
    ensures action.Act? && action.move.BreakConnection? ==> place != OfSender(action.s)
  {
    if action.Act? {
      MovesStages(sys, action.s, action.move);
      hide Moved, CanMove;
    }
  }

  lemma NextKeepsUndisputed(sys: System, action: Action, path: string)
    requires Undisputed(sys, path) && Enabled(sys, action) && !TwoHaveAsked(Next(sys, action), path)
    ensures Undisputed(Next(sys, action), path)
  {
    hide Enabled, Next, HasAsked, HasGuard, TwoHaveAsked;
    var sys', token := Next(sys, action), Token(sys.user, path);
    forall a, b | Contends(sys', a, path) && Contends(sys', b, path)
      ensures a == b
    {
      NextKeepsContenders(sys, action, path, a, b);
    }
    TokensFollow(sys, action, path);
    if token in sys'.svc && token in sys.svc {
      var place :| HasGuard(sys, place, path);
      AllGoTo(sys, action, place, path);
    }
    if GuardedBySome(sys', path) {
      var place :| HasGuard(sys', place, path);
      GuardIsInMap(sys, action, place, path);
    }
  }

  lemma GuardIsInMap(sys: System, action: Action, place: Place, path: string)
    requires Undisputed(sys, path) && Enabled(sys, action) && HasGuard(Next(sys, action), place, path)
    ensures Token(sys.user, path) in Next(sys, action).svc
  {
    hide Enabled, Next, HasAsked, HasGuard;
    var sys', origin := Next(sys, action), Origin(sys, action, place);
    TokensFollow(sys, action, path);
    BrokenDoesNotContend(sys, action, place, path);
    if HasGuard(sys, origin, path) {
      assert GuardedBySome(sys, path);
      // only this request could take the key from the map, and it still has the guard
      forall other | Leaves(action, other) && HasGuard(sys, other, path)
        ensures HasGuard(sys', other, path)
      {
        assert Contends(sys, other, path) && Contends(sys, origin, path);
      }
    }
  }

  /**
   In every run at most one request at a time has the guard of a path, and the map says so, unless at some
   moment two requests have asked for the guard and neither has it yet.
   */
  lemma {:induction false} GuardsExclude(sys: System, actions: seq<Action>, path: string)
    requires Init(sys) && Run(sys, actions).Some? && NeverTwoHaveAsked(sys, actions, path)
    ensures Undisputed(Run(sys, actions).value, path)
  {
    hide Undisputed, TwoHaveAsked, Enabled, Next, Init;
    if actions == [] {
      InitUndisputed(sys, path);
    } else {
      GuardsExclude(sys, actions[..|actions| - 1], path);
      NextKeepsUndisputed(Run(sys, actions[..|actions| - 1]).value, actions[|actions| - 1], path);
    }
  }

  lemma InitUndisputed(sys: System, path: string)
    requires Init(sys)
    ensures Undisputed(sys, path)
  {}

  /** Then a sender's request that asks while another one has the guard is answered with a failure, without effect. */
  lemma {:induction false} AskingIsRefused(sys: System, actions: seq<Action>, path: string, place: Place, s: nat)
    requires Init(sys) && Run(sys, actions).Some? && NeverTwoHaveAsked(sys, actions, path)
    requires HasGuard(Run(sys, actions).value, place, path)
    requires s < |Run(sys, actions).value.senders| && Run(sys, actions).value.senders[s].Busy?
    requires Run(sys, actions).value.senders[s].stage.Sent? && Run(sys, actions).value.senders[s].job.path == path
    ensures var before := Run(sys, actions).value;
      && Enabled(before, Act(s, CheckGuard))
      && var after := Next(before, Act(s, CheckGuard));
      && after.senders[s] == before.senders[s].(stage := Answered(before.senders[s].stage.message, false))
      && after.store == before.store && after.svc == before.svc && after.strays == before.strays
  {
    hide Run;
    GuardsExclude(sys, actions, path);
    assert GuardedBySome(Run(sys, actions).value, path);
  }

  /** And a stray request that asks then is over. */
  lemma {:induction false} StrayIsRefused(sys: System, actions: seq<Action>, path: string, place: Place, k: nat)
    requires Init(sys) && Run(sys, actions).Some? && NeverTwoHaveAsked(sys, actions, path)
    requires HasGuard(Run(sys, actions).value, place, path)
    requires k < |Run(sys, actions).value.strays| && Run(sys, actions).value.strays[k].phase.Arrived?
    requires Run(sys, actions).value.strays[k].request.key.path == path
    ensures var before := Run(sys, actions).value;
      && Enabled(before, RunOn(k))
      && var after := Next(before, RunOn(k));
      && after.strays[k].phase.Over? && after.store == before.store && after.svc == before.svc
      && after.senders == before.senders
  {
    hide Run;
    GuardsExclude(sys, actions, path);
    assert GuardedBySome(Run(sys, actions).value, path);
  }
}
