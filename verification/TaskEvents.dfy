/** The event table of storage.py next to the task table: the last event of a task tells its state. */
module TaskEvents {
  import opened Wrappers
  import opened TaskOrder
  import opened TaskModel
  import opened Scheduler
  import opened Lifecycle
  import opened LifecycleSafety
  import opened LifecycleSteps
  import opened LifecycleRuns

  /** What the last event of `id` says. */
  function Told(events: seq<(Id, State)>, id: Id): Option<State> {
    if events == [] then None
    else if events[|events| - 1].0 == id then Some(events[|events| - 1].1)
    else Told(events[..|events| - 1], id)
  }

  /** Every row's state is that of its last event, and a task without a row has no event. */
  ghost predicate EventsTell(db: Db) {
    forall id :: Told(db.events, id) == if id in db.tasks then Some(db.tasks[id].state) else None
  }

  lemma ToldSnoc(events: seq<(Id, State)>, e: (Id, State))
    ensures forall id :: Told(events + [e], id) == if id == e.0 then Some(e.1) else Told(events, id)
  {
    assert (events + [e])[..|events|] == events;
  }

  lemma MovedTells(db: Db, id: Id, expected: set<State>, state: State, c: Changes)
    requires EventsTell(db)
    ensures EventsTell(Moved(db, id, expected, state, c))
  {
    ToldSnoc(db.events, (id, state));
    var after := Moved(db, id, expected, state, c);
    forall other
      ensures Told(after.events, other) == if other in after.tasks then Some(after.tasks[other].state) else None
    {
      assert Told(db.events, other) == if other in db.tasks then Some(db.tasks[other].state) else None;
    }
  }

  lemma StopTells(db: Db, id: Id, actions: seq<StopAction>)
    requires EventsTell(db)
    ensures EventsTell(WithStop(db, id, actions))
  {
  }

  lemma SubmitTells(db: Db, id: Id, t: Task)
    requires EventsTell(db) && t.state == QUEUED
    ensures EventsTell(Db(db.tasks[id := t], db.events + [(id, QUEUED)]))
  {
    ToldSnoc(db.events, (id, QUEUED));
  }

  lemma {:induction false} ToldWithout(events: seq<(Id, State)>, id: Id, other: Id)
    ensures Told(WithoutEvents(events, id), other) == if other == id then None else Told(events, other)
    decreases |events|
  {
    if events != [] {
      var rest := WithoutEvents(events[..|events| - 1], id);
      ToldWithout(events[..|events| - 1], id, other);
      ToldSnoc(rest, events[|events| - 1]);
    }
  }

  lemma PurgeTells(db: Db, id: Id)
    requires EventsTell(db)
    ensures EventsTell(Db(Drop(db.tasks, id), WithoutEvents(db.events, id)))
  {
    forall other
      ensures Told(WithoutEvents(db.events, id), other) ==
        if other in Drop(db.tasks, id) then Some(Drop(db.tasks, id)[other].state) else None
    {
      ToldWithout(db.events, id, other);
      assert Told(db.events, other) == if other in db.tasks then Some(db.tasks[other].state) else None;
    }
  }

  lemma {:induction false} WalkTells(db: Db, page: seq<Id>, held: set<string>, capacity: Option<nat>)
    requires EventsTell(db)
    ensures EventsTell(Walk(db, page, held, capacity).db)
    decreases |page|
  {
    hide EventsTell;
    if page != [] && capacity != Some(0) {
      var id := page[0];
      if !CanTransition(db, id, {QUEUED}) || held * db.tasks[id].keys != {} {
        WalkTells(db, page[1..], held, capacity);
      } else {
        MovedTells(db, id, {QUEUED}, STARTING, Changes(started := true));
        WalkTells(Launch(db, id), page[1..], held + db.tasks[id].keys, Less(capacity));
      }
    }
  }

  lemma TickTells(db: Db, limit: Option<nat>, cursor: Option<Id>)
    requires EventsTell(db)
    ensures EventsTell(Tick(db, limit, cursor).db)
  {
    hide EventsTell, HeldKeys, IsQueuePage;
    TickIsWalk(db, limit, cursor);
    WalkTells(db, WalkedPage(db, limit, cursor), HeldKeys(db), Capacity(limit, |Active(db)|));
  }

  lemma StepTells(w: World, s: Step)
    requires Enabled(w, s) && EventsTell(w.db)
    ensures EventsTell(Do(w, s).db)
  {
    hide EventsTell, Tick, Active, WithoutEvents, Moved, WithStop, Page, IsOver;
    match s {
      case Submit(id, keys, stop) => SubmitTells(w.db, id, NewTask(keys, stop));
      case Schedule => TickTells(w.db, w.limit, w.cursor);
      case Purge(id) => PurgeTells(w.db, id);
      case Interrupt(id) =>
        MovedTells(w.db, id, {QUEUED}, CANCELLED, Changes(stage := Some(QueuedStage), ended := true));
        StopTells(w.db, id, DEFAULT_ACTIONS);
        MovedTells(WithStop(w.db, id, DEFAULT_ACTIONS), id, {STARTING, RUNNING}, STOPPING,
                  Changes(stage := Some(Requested)));
      case RecoverNext(completed, running) =>
        RecoverTells(w, w.mode.page[0], ReportOf(w.mode.rebooted, completed, running));
      case _ => OtherTells(w, s);
    }
  }

  lemma RecoverTells(w: World, id: Id, report: Report)
    requires EventsTell(w.db)
    ensures EventsTell(DoRecover(w, id, report).db)
  {
    hide EventsTell, Moved, Outcome;
    var stage := if id in w.db.tasks then w.db.tasks[id].stage else None;
    MovedTells(w.db, id, ACTIVE, LOST, Changes(ended := true));
    MovedTells(w.db, id, ACTIVE, CANCELLED, Changes(exitCode := Some(137), ended := true));
    if report.Finished? {
      MovedTells(w.db, id, ACTIVE, Outcome(report.code, stage), Changes(exitCode := Some(report.code), ended := true));
    }
  }

  /** The steps that change at most one row, by one transition. */
  lemma OtherTells(w: World, s: Step)
    requires Enabled(w, s) && EventsTell(w.db)
    requires !s.Submit? && !s.Schedule? && !s.Purge? && !s.Interrupt? && !s.RecoverNext?
    ensures EventsTell(Do(w, s).db)
  {
    hide EventsTell, Active, Moved, Page, IsOver;
    match s {
      case StartSucceeds(id) => MovedTells(w.db, id, {STARTING}, RUNNING, Changes());
      case StartFails(id) => MovedTells(w.db, id, {STARTING}, FAILED, Changes(exitCode := Some(127), ended := true));
      case WaitCommits(id) =>
        var d := w.waiters[id];
        MovedTells(w.db, id, ACTIVE, d.state, Changes(exitCode := Some(d.code), ended := true));
      case WaitFindsNothing(id) => MovedTells(w.db, id, ACTIVE, LOST, Changes(ended := true));
      case SequencePersists(id) =>
        MovedTells(w.db, id, ACTIVE, STOPPING, Changes(stage := Some(StopAt(w.interrupts[id].index))));
      case SequenceKills(id) => MovedTells(w.db, id, ACTIVE, STOPPING, Changes(stage := Some(Sigkill)));
      case ShutdownKills(id) => MovedTells(w.db, id, ACTIVE, STOPPING, Changes(stage := Some(Sigkill)));
      case ExitConfirmed(id, code) =>
        MovedTells(w.db, id, {STOPPING}, CANCELLED, Changes(exitCode := Some(code), ended := true));
      case _ =>
    }
  }

  /** In every run, whoever reads the events knows the state of every task. */
  lemma {:induction false} EventsTellStates(ws: seq<World>, ss: seq<Step>, i: nat)
    requires IsRun(ws, ss) && i < |ws|
    ensures EventsTell(ws[i].db)
    decreases i
  {
    hide Enabled, Do, EventsTell;
    if i == 0 {
      NothingTold();
    } else {
      EventsTellStates(ws, ss, i - 1);
      StepTells(ws[i - 1], ss[i - 1]);
    }
  }

  lemma NothingTold()
    ensures EventsTell(INITIAL.db)
  {
  }
}
