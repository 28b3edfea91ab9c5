/** Differences between two sets of files, as lists of events, and what replaying them gives. */
module Reconcile {
  import opened Common
  import opened ServerStore

  datatype Status = Created | Modified | Removed

  datatype Event = Event(path: string, meta: Metadata, status: Status)

  /** A file counts as modified when both its write time and its checksum changed. */
  predicate Differs(a: Metadata, b: Metadata) {
    a.lastWriteTime != b.lastWriteTime && a.checksum != b.checksum
  }

  /** The event, if any, that turns the old state of a path into the new one. */
  function EventFor(before: map<string, Metadata>, after: map<string, Metadata>, path: string): (event: Option<Event>)
    ensures event.Some? ==>
      && event.value.path == path
      && (path !in after ==> event.value.status.Removed? && path in before)
      && (path in after ==> event.value.meta == after[path])
      && (path in after && path !in before ==> event.value.status.Created?)
      && (path in after && path in before ==> event.value.status.Modified?)
    ensures event.None? ==> (path in before <==> path in after)
    ensures path in before && path in after ==>
      (event.None? <==>
        before[path].lastWriteTime == after[path].lastWriteTime || before[path].checksum == after[path].checksum)
  {
    if path in before && path !in after then Some(Event(path, NO_METADATA, Removed))
    else if path in before && Differs(before[path], after[path]) then Some(Event(path, after[path], Modified))
    else if path !in before && path in after then Some(Event(path, after[path], Created))
    else None
  }

  function Extend(events: seq<Event>, event: Option<Event>): seq<Event> {
    if event.Some? then events + [event.value] else events
  }

  /** The events are exactly those due for the decided paths, each once. */
  ghost predicate ListsOn(
      events: seq<Event>, before: map<string, Metadata>, after: map<string, Metadata>, decided: set<string>) {
    && (forall i, j | 0 <= i < j < |events| :: events[i].path != events[j].path)
    && (forall e | e in events :: e.path in decided && EventFor(before, after, e.path) == Some(e))
    && (forall path | path in decided && EventFor(before, after, path).Some? ::
          EventFor(before, after, path).value in events)
  }

  /** The events list the whole difference. */
  ghost predicate Lists(events: seq<Event>, before: map<string, Metadata>, after: map<string, Metadata>) {
    ListsOn(events, before, after, before.Keys + after.Keys)
  }

  lemma NothingDecided(before: map<string, Metadata>, after: map<string, Metadata>)
    ensures ListsOn([], before, after, {})
  {}

  /** One more path is decided, with its event if there is one. */
  lemma DecideOne(
      events: seq<Event>, before: map<string, Metadata>, after: map<string, Metadata>, decided: set<string>,
      path: string)
    requires ListsOn(events, before, after, decided)
    ensures path in decided ==> ListsOn(events, before, after, decided + {path})
    ensures path !in decided ==>
      ListsOn(Extend(events, EventFor(before, after, path)), before, after, decided + {path})
  {
    if path in decided {
      assert decided + {path} == decided;
    } else {
      forall i | 0 <= i < |events|
        ensures events[i].path != path
      {
        assert events[i] in events;
      }
    }
  }

  function Apply(files: map<string, Metadata>, event: Event): map<string, Metadata> {
    if event.status.Removed? then files - {event.path} else files[event.path := event.meta]
  }

  function Replay(files: map<string, Metadata>, events: seq<Event>): map<string, Metadata> {
    if events == [] then files
    else Apply(Replay(files, events[..|events| - 1]), events[|events| - 1])
  }

  /** The new files, except that entries which do not count as modified are left as they were. */
  function Merge(before: map<string, Metadata>, after: map<string, Metadata>): map<string, Metadata> {
    map path | path in after ::
      if path in before && !Differs(before[path], after[path]) then before[path] else after[path]
  }

  // ---------- what replaying does to one path ----------

  /** The last event of a path. */
  function LastEvent(events: seq<Event>, path: string): Option<Event> {
    if events == [] then None
    else if events[|events| - 1].path == path then Some(events[|events| - 1])
    else LastEvent(events[..|events| - 1], path)
  }

  /** Replaying leaves on each path what its last event says. */
  lemma {:induction false} ReplayAt(files: map<string, Metadata>, events: seq<Event>, path: string)
    ensures var event, files' := LastEvent(events, path), Replay(files, events);
      && (path in files' <==> if event.Some? then !event.value.status.Removed? else path in files)
      && (path in files' ==> files'[path] == if event.Some? then event.value.meta else files[path])
  {
    if events != [] {
      ReplayAt(files, events[..|events| - 1], path);
    }
  }

  lemma {:induction false} LastEventConcat(a: seq<Event>, b: seq<Event>, path: string)
    ensures LastEvent(a + b, path) == if LastEvent(b, path).Some? then LastEvent(b, path) else LastEvent(a, path)
  {
    if b == [] {
      assert a + b == a;
    } else {
      LastEventConcat(a, b[..|b| - 1], path);
      assert (a + b)[..|a + b| - 1] == a + b[..|b| - 1];
    }
  }

  lemma {:induction false} ReplayConcat(files: map<string, Metadata>, a: seq<Event>, b: seq<Event>)
    ensures Replay(files, a + b) == Replay(Replay(files, a), b)
  {
    if b == [] {
      assert a + b == a;
    } else {
      ReplayConcat(files, a, b[..|b| - 1]);
      assert (a + b)[..|a + b| - 1] == a + b[..|b| - 1];
    }
  }

  lemma ReplayNothing(files: map<string, Metadata>)
    ensures Replay(files, []) == files
  {}

  lemma {:induction false} LastEventIsListed(events: seq<Event>, path: string)
    ensures LastEvent(events, path).Some? <==> exists e :: e in events && e.path == path
    ensures LastEvent(events, path).Some? ==>
      LastEvent(events, path).value in events && LastEvent(events, path).value.path == path
  {
    if events != [] {
      var init, last := events[..|events| - 1], events[|events| - 1];
      assert events == init + [last];
      LastEventIsListed(init, path);
    }
  }

  /** In a list of the whole difference the last event of a path is the one due. */
  lemma LastEventIsDue(events: seq<Event>, before: map<string, Metadata>, after: map<string, Metadata>, path: string)
    requires Lists(events, before, after)
    ensures LastEvent(events, path) == EventFor(before, after, path)
  {
    LastEventIsListed(events, path);
  }

  /** Replaying the listed events on the old files gives the merged ones. */
  lemma ReplayGivesMerge(before: map<string, Metadata>, after: map<string, Metadata>, events: seq<Event>)
    requires Lists(events, before, after)
    ensures Replay(before, events) == Merge(before, after)
  {
    hide Lists, Replay;
    forall path
      ensures path in Replay(before, events) <==> path in Merge(before, after)
      ensures path in Merge(before, after) ==> Replay(before, events)[path] == Merge(before, after)[path]
    {
      LastEventIsDue(events, before, after, path);
      ReplayAt(before, events, path);
    }
  }

  /** Merged files differ from the new ones in nothing that counts. */
  lemma MergedIsInStep(before: map<string, Metadata>, after: map<string, Metadata>, path: string)
    ensures EventFor(Merge(before, after), after, path).None?
  {}
}
