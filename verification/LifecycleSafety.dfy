/** What every run of the task lifecycle keeps. */
module LifecycleSafety {
  import opened Collections
  import opened Wrappers
  import opened TaskOrder
  import opened TaskModel
  import opened Scheduler
  import opened Lifecycle

  // ---------------------------------------------------------------- the invariant: rows and events

  ghost predicate RowOk(t: Task) {
    && (t.ended <==> t.state in TERMINAL)
    && (t.state == SUCCEEDED ==> t.exitCode == Some(0))
    && (t.state == FAILED ==> t.exitCode.Some? && t.exitCode.value != 0)
    && (t.state in {STOPPING, CANCELLED} ==> t.stage.Some?)
    && (t.state in {QUEUED, STARTING, RUNNING} ==> t.stage.None?)
    && (t.stage == Some(QueuedStage) ==> t.state == CANCELLED)
    && (t.stage.Some? && t.stage.value != QueuedStage ==> t.stop.Some?)
    && (t.stage.Some? && t.stage.value.StopAt? ==> t.stage.value.index < |t.stop.value|)
    && (t.stop.Some? ==> t.stop.value != [])
  }

  /** How many events of `id` say that it reached a terminal state. */
  function TerminalEvents(events: seq<(Id, State)>, id: Id): nat {
    if events == [] then 0 else
    var last := events[|events| - 1];
    TerminalEvents(events[..|events| - 1], id) + if last.0 == id && last.1 in TERMINAL then 1 else 0
  }

  function TerminalRows(db: Db, id: Id): nat {
    if id in db.tasks && db.tasks[id].state in TERMINAL then 1 else 0
  }

  ghost predicate EventsOk(db: Db) {
    forall id :: TerminalEvents(db.events, id) == TerminalRows(db, id)
  }

  ghost predicate RowsOk(db: Db) {
    forall id :: id in db.tasks ==> RowOk(db.tasks[id])
  }

  ghost predicate DbOk(db: Db) {
    RowsOk(db) && EventsOk(db) && MutexSafe(db)
  }

  ghost predicate CapacityOk(w: World) {
    w.limit.Some? ==> |Active(w.db)| <= w.limit.value || |Active(w.db)| <= w.history.peak
  }

  // ---------------------------------------------------------------- the invariant: coroutines

  predicate IsActive(db: Db, id: Id) {
    id in db.tasks && db.tasks[id].state in ACTIVE
  }

  ghost predicate UpTo(s: set<nat>, n: nat) {
    forall i: nat :: i < n ==> i in s
  }

  /** How many actions the stage says have been begun: `stop:k` is persisted before action k is applied. */
  function ActionsBegun(stage: Option<Stage>): nat {
    if stage.Some? && stage.value.StopAt? then stage.value.index + 1 else 0
  }

  ghost predicate WaiterOk(w: World, id: Id, p: Waiter) {
    && (id in w.db.tasks ==> w.db.tasks[id].state != QUEUED)
    && (p.Deciding? ==>
          match p.state
          case SUCCEEDED => p.code == 0
          case FAILED => p.code != 0
          case CANCELLED => id in w.db.tasks ==> w.db.tasks[id].stage.Some?
          case _ => false)
  }

  ghost predicate SequenceOk(w: World, id: Id, q: Sequence) {
    && (id in w.db.tasks ==> w.db.tasks[id].state !in {QUEUED, STARTING, RUNNING})
    && (IsActive(w.db, id) ==>
          var t := w.db.tasks[id];
          match q
          case Fresh => true
          case Killing => true
          case Upcoming(actions, i) =>
            && t.stop == Some(actions) && i <= |actions|
            && ActionsBegun(t.stage) <= i + 1 && UpTo(AttemptedBy(w.history, id), i)
          case Applying(actions, i) =>
            && t.stop == Some(actions) && i < |actions|
            && ActionsBegun(t.stage) <= i + 1 && UpTo(AttemptedBy(w.history, id), i))
  }

  /** A persisted stage tells the truth about the actions before it. */
  ghost predicate StageOk(w: World, id: Id) {
    id in w.db.tasks && w.db.tasks[id].stage.Some? && w.db.tasks[id].stage.value.StopAt? ==>
      UpTo(AttemptedBy(w.history, id), w.db.tasks[id].stage.value.index)
  }

  predicate Attended(w: World, id: Id) {
    id in w.starters || id in w.waiters || id in w.interrupts
  }

  /** The tasks that recovery has still to visit, in order. */
  ghost function Pending(w: World): seq<Id> {
    if w.mode.Recovering? && |w.history.visited| <= |w.history.targets|
    then Sorted(w.history.targets)[|w.history.visited|..]
    else []
  }

  /** Everything that is promised about one task and its coroutines: among it that an active
      task always has a starter, a waiter or a stop sequence, or is about to be recovered, unless it has
      lost a stop sequence. */
  ghost predicate TaskOk(w: World, id: Id) {
    && (id in w.starters && id in w.db.tasks ==> w.db.tasks[id].state !in {QUEUED, RUNNING})
    && (id in w.waiters ==> WaiterOk(w, id, w.waiters[id]))
    && (id in w.interrupts ==> SequenceOk(w, id, w.interrupts[id]))
    && StageOk(w, id)
    && (id in w.history.lost && id in w.db.tasks ==> w.db.tasks[id].state !in {QUEUED, STARTING, RUNNING})
    && (id in w.history.lost ==> id !in Pending(w))
    && (IsActive(w.db, id) ==> Attended(w, id) || id in Pending(w) || id in w.history.lost)
    && (IsActive(w.db, id) && w.db.tasks[id].state == STOPPING ==>
          id in w.waiters || id in w.interrupts || id in Pending(w) || id in w.history.lost)
    && (IsActive(w.db, id) && w.mode.Recovering? ==> id in w.waiters || id in Pending(w))
  }

  /** Recovery has visited, and holds in its page, the first of the tasks that were active at its start. */
  ghost predicate RecoveryOk(w: World)
    requires w.mode.Recovering?
  {
    var targets := Sorted(w.history.targets);
    var n := |w.history.visited| + |w.mode.page|;
    && w.starters == {}
    && Active(w.db) <= w.history.targets
    && n <= |targets| && w.history.visited + w.mode.page == targets[..n]
    && w.mode.cursor == (if n == 0 then None else Some(targets[n - 1]))
    && (!w.mode.more ==> n == |targets|)
    && (forall id :: id in Pending(w) ==> IsActive(w.db, id) && !Attended(w, id))
    && (forall id :: id in w.history.targets && id in w.db.tasks ==> w.db.tasks[id].state != QUEUED)
  }

  ghost predicate Inv(w: World) {
    && DbOk(w.db)
    && w.db.tasks.Keys + w.starters + w.waiters.Keys + w.interrupts.Keys + w.history.lost <= w.history.used
    && CapacityOk(w)
    && (forall id :: TaskOk(w, id))
    && (w.mode.Recovering? ==> RecoveryOk(w))
  }

  // ---------------------------------------------------------------- changes of one row

  lemma EventsSnoc(events: seq<(Id, State)>, e: (Id, State))
    ensures forall id :: TerminalEvents(events + [e], id)
                      == TerminalEvents(events, id) + if e.0 == id && e.1 in TERMINAL then 1 else 0
  {
    assert (events + [e])[..|events|] == events;
  }

  /** A transition between states that are not queued and not terminal at first keeps the tables sound. */
  lemma MovedKeeps(db: Db, id: Id, expected: set<State>, state: State, c: Changes)
    requires DbOk(db) && expected !! TERMINAL
    requires QUEUED in expected ==> state !in ACTIVE
    requires CanTransition(db, id, expected) ==> RowOk(Assign(db.tasks[id], state, c))
    ensures var after := Moved(db, id, expected, state, c);
            && DbOk(after) && after.tasks.Keys == db.tasks.Keys
            && Active(after) <= Active(db) && |Active(after)| <= |Active(db)|
  {
    var after := Moved(db, id, expected, state, c);
    if CanTransition(db, id, expected) {
      EventsSnoc(db.events, (id, state));
      assert Active(after) <= Active(db);
      SubsetSize(Active(after), Active(db));
    }
  }

  lemma StopKeeps(db: Db, id: Id, actions: seq<StopAction>)
    requires DbOk(db) && (id in db.tasks ==> db.tasks[id].stage.None?) && actions != []
    ensures var after := WithStop(db, id, actions);
            DbOk(after) && after.tasks.Keys == db.tasks.Keys && Active(after) == Active(db)
  {
    var after := WithStop(db, id, actions);
    assert after.events == db.events;
    assert Active(after) == Active(db);
  }

  lemma {:induction false} WithoutEventsOk(events: seq<(Id, State)>, id: Id, other: Id)
    ensures TerminalEvents(WithoutEvents(events, id), other) == if other == id then 0 else TerminalEvents(events, other)
    decreases |events|
  {
    if events != [] {
      var rest := WithoutEvents(events[..|events| - 1], id);
      WithoutEventsOk(events[..|events| - 1], id, other);
      EventsSnoc(rest, events[|events| - 1]);
    }
  }

  lemma PurgeKeeps(db: Db, id: Id)
    requires DbOk(db) && id in db.tasks && db.tasks[id].state in TERMINAL
    ensures var after := Db(Drop(db.tasks, id), WithoutEvents(db.events, id));
            DbOk(after) && after.tasks.Keys <= db.tasks.Keys && Active(after) == Active(db)
  {
    var after := Db(Drop(db.tasks, id), WithoutEvents(db.events, id));
    forall other ensures TerminalEvents(after.events, other) == TerminalRows(after, other) {
      WithoutEventsOk(db.events, id, other);
      assert TerminalEvents(db.events, other) == TerminalRows(db, other);
    }
    assert Active(after) == Active(db);
  }

  lemma SubmitKeeps(db: Db, id: Id, keys: set<string>, stop: Option<seq<StopAction>>)
    requires DbOk(db) && id !in db.tasks && (stop.Some? ==> stop.value != [])
    ensures var after := Db(db.tasks[id := NewTask(keys, stop)], db.events + [(id, QUEUED)]);
            DbOk(after) && Active(after) == Active(db)
  {
    var after := Db(db.tasks[id := NewTask(keys, stop)], db.events + [(id, QUEUED)]);
    EventsSnoc(db.events, (id, QUEUED));
    forall other ensures TerminalEvents(after.events, other) == TerminalRows(after, other) {
      assert TerminalEvents(db.events, other) == TerminalRows(db, other);
    }
    assert Active(after) == Active(db);
  }

  // ---------------------------------------------------------------- the scheduler tick

  lemma {:induction false} WalkEvents(db: Db, page: seq<Id>, held: set<string>, capacity: Option<nat>, id: Id)
    ensures TerminalEvents(Walk(db, page, held, capacity).db.events, id) == TerminalEvents(db.events, id)
    decreases |page|
  {
    if page != [] && capacity != Some(0) {
      var next := page[0];
      if !CanTransition(db, next, {QUEUED}) || held * db.tasks[next].keys != {} {
        WalkEvents(db, page[1..], held, capacity, id);
      } else {
        EventsSnoc(db.events, (next, STARTING));
        WalkEvents(Launch(db, next), page[1..], held + db.tasks[next].keys, Less(capacity), id);
      }
    }
  }

  /** The started tasks of a walk are exactly the rows it changed. */
  lemma {:induction false} WalkStarts(db: Db, page: seq<Id>, held: set<string>, capacity: Option<nat>)
    requires IsQueuePage(db, page)
    ensures var w := Walk(db, page, held, capacity);
            && w.db.tasks.Keys == db.tasks.Keys
            && (forall id :: id in w.started ==> id in page && CanTransition(db, id, {QUEUED}))
            && (forall id :: id in db.tasks ==>
                  w.db.tasks[id] == if id in w.started then Assign(db.tasks[id], STARTING, Changes(started := true))
                                    else db.tasks[id])
    decreases |page|
  {
    if page != [] && capacity != Some(0) {
      var next := page[0];
      TailIsPage(db, page);
      HeadIsNew(page, |page|);
      assert page[1..][..|page| - 1] == page[1..];
      if held * db.tasks[next].keys != {} {
        WalkStarts(db, page[1..], held, capacity);
      } else {
        WalkStarts(Launch(db, next), page[1..], held + db.tasks[next].keys, Less(capacity));
      }
    }
  }

  lemma PageIsQueuePage(db: Db, n: nat, cursor: Option<Id>)
    ensures IsQueuePage(db, Page(InStates(db, {QUEUED}), n, cursor))
  {
    var all := Sorted(After(InStates(db, {QUEUED}), cursor));
    var page := Page(InStates(db, {QUEUED}), n, cursor);
    forall i | 0 <= i < |page| ensures CanTransition(db, page[i], {QUEUED}) {
      assert page[i] == all[i] && all[i] in Elements(all);
    }
  }

  /** The page a tick walks over; empty when there is no capacity. */
  ghost function WalkedPage(db: Db, limit: Option<nat>, cursor: Option<Id>): seq<Id> {
    var capacity := Capacity(limit, |Active(db)|);
    if capacity == Some(0) then [] else TickPage(db, ScanLimit(capacity), cursor).0
  }

  lemma TickIsWalk(db: Db, limit: Option<nat>, cursor: Option<Id>)
    ensures var capacity := Capacity(limit, |Active(db)|);
            var w := Walk(db, WalkedPage(db, limit, cursor), HeldKeys(db), capacity);
            && IsQueuePage(db, WalkedPage(db, limit, cursor))
            && Tick(db, limit, cursor).db == w.db && Tick(db, limit, cursor).started == w.started
  {
    hide HeldKeys, IsQueuePage, Page;
    var capacity := Capacity(limit, |Active(db)|);
    if capacity == Some(0) {
      EmptyPage(db);
    } else {
      PageIsQueuePage(db, ScanLimit(capacity), cursor);
      PageIsQueuePage(db, ScanLimit(capacity), None);
    }
  }

  lemma EmptyPage(db: Db)
    ensures IsQueuePage(db, [])
  {
  }

  /** One tick keeps the tables sound, mutual exclusion included, and never passes the limit. */
  lemma TickKeeps(db: Db, limit: Option<nat>, cursor: Option<Id>)
    requires DbOk(db)
    ensures var t := Tick(db, limit, cursor);
            && DbOk(t.db) && t.db.tasks.Keys == db.tasks.Keys
            && (limit.Some? ==> |Active(t.db)| <= limit.value || |Active(t.db)| == |Active(db)|)
            && (forall id :: id in db.tasks ==>
                  t.db.tasks[id] == (if id in t.started then Assign(db.tasks[id], STARTING, Changes(started := true))
                                     else db.tasks[id]))
            && (forall id :: id in t.started ==> CanTransition(db, id, {QUEUED}))
  {
    hide HeldKeys, IsQueuePage, MutexSafe, Tick, Walk, Page, TerminalEvents;
    var page := WalkedPage(db, limit, cursor);
    var capacity := Capacity(limit, |Active(db)|);
    TickIsWalk(db, limit, cursor);
    WalkKeeps(db, page, HeldKeys(db), capacity);
    WalkStarts(db, page, HeldKeys(db), capacity);
    var t := Tick(db, limit, cursor);
    forall id ensures TerminalEvents(t.db.events, id) == TerminalRows(t.db, id) {
      WalkEvents(db, page, HeldKeys(db), capacity, id);
      assert TerminalEvents(db.events, id) == TerminalRows(db, id);
    }
  }

  // ---------------------------------------------------------------- steps of one task

  /** Nothing about `id` differs between the two worlds. */
  ghost predicate SameFor(w: World, v: World, id: Id) {
    && (id in v.db.tasks <==> id in w.db.tasks)
    && (id in w.db.tasks ==> v.db.tasks[id] == w.db.tasks[id])
    && (id in v.starters <==> id in w.starters)
    && (id in v.waiters <==> id in w.waiters) && (id in w.waiters ==> v.waiters[id] == w.waiters[id])
    && (id in v.interrupts <==> id in w.interrupts) && (id in w.interrupts ==> v.interrupts[id] == w.interrupts[id])
    && AttemptedBy(v.history, id) == AttemptedBy(w.history, id)
    && (id in v.history.lost <==> id in w.history.lost)
  }

  /** The step changes only the task `id`, and no task becomes active. */
  ghost predicate OnlyTouches(w: World, v: World, id: Id) {
    && (forall other :: other != id ==> SameFor(w, v, other))
    && v.mode == w.mode && v.limit == w.limit
    && v.history.used == w.history.used && v.history.peak == w.history.peak
    && v.history.targets == w.history.targets && v.history.visited == w.history.visited
    && v.db.tasks.Keys <= w.db.tasks.Keys
    && (id in v.db.tasks && v.db.tasks[id].state == QUEUED ==> w.db.tasks[id].state == QUEUED)
    && Active(v.db) <= Active(w.db)
  }

  lemma SameTaskOk(w: World, v: World, id: Id)
    requires TaskOk(w, id) && SameFor(w, v, id) && Pending(v) == Pending(w)
    requires v.mode.Recovering? ==> w.mode.Recovering?
    ensures TaskOk(v, id)
  {
    hide Pending;
  }

  /** A step of one coroutine keeps the invariant if it keeps what is promised about its task. */
  lemma OneTask(w: World, v: World, id: Id)
    requires Inv(w) && OnlyTouches(w, v, id) && DbOk(v.db) && TaskOk(v, id)
    requires id in w.history.used
    requires w.mode.Recovering? ==> Attended(w, id) && v.starters <= w.starters
    ensures Inv(v)
  {
    hide DbOk, TaskOk, Active, Pending, SameFor, RecoveryOk;
    assert Pending(v) == Pending(w) by { SamePending(w, v); }
    KnownIds(w, v, id);
    forall other ensures TaskOk(v, other) {
      if other != id {
        assert TaskOk(w, other);
        SameTaskOk(w, v, other);
      }
    }
    SubsetSize(Active(v.db), Active(w.db));
    if w.mode.Recovering? {
      RecoveryUntouched(w, v, id);
    }
  }

  lemma RecoveryUntouched(w: World, v: World, id: Id)
    requires w.mode.Recovering? && RecoveryOk(w) && OnlyTouches(w, v, id) && Attended(w, id) && v.starters <= w.starters
    ensures RecoveryOk(v)
  {
    hide Pending, SameFor, IsActive, Attended, Active, Sorted;
    SamePending(w, v);
    forall other | other in Pending(v) ensures IsActive(v.db, other) && !Attended(v, other) {
      assert SameFor(w, v, other);
      SameAttendance(w, v, other);
    }
    forall other | other in w.history.targets && other in v.db.tasks ensures v.db.tasks[other].state != QUEUED {
      if other != id {
        assert SameFor(w, v, other);
        SameRow(w, v, other);
      }
    }
  }

  lemma SameRow(w: World, v: World, id: Id)
    requires SameFor(w, v, id) && id in v.db.tasks
    ensures id in w.db.tasks && v.db.tasks[id] == w.db.tasks[id]
  {
  }

  lemma SamePending(w: World, v: World)
    requires v.mode == w.mode && v.history.visited == w.history.visited && v.history.targets == w.history.targets
    ensures Pending(v) == Pending(w)
  {
  }

  lemma SameAttendance(w: World, v: World, id: Id)
    requires SameFor(w, v, id)
    ensures IsActive(v.db, id) == IsActive(w.db, id) && Attended(v, id) == Attended(w, id)
  {
  }

  lemma KnownIds(w: World, v: World, id: Id)
    requires w.db.tasks.Keys + w.starters + w.waiters.Keys + w.interrupts.Keys + w.history.lost <= w.history.used
    requires id in w.history.used && forall other :: other != id ==> SameFor(w, v, other)
    ensures v.db.tasks.Keys + v.starters + v.waiters.Keys + v.interrupts.Keys + v.history.lost <= w.history.used
  {
    forall other | other in v.db.tasks.Keys + v.starters + v.waiters.Keys + v.interrupts.Keys + v.history.lost
      ensures other in w.history.used
    {
      assert other == id || SameFor(w, v, other);
    }
  }
}
