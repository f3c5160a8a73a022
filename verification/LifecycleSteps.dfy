/** Every step of the task lifecycle keeps the invariant of LifecycleSafety. */
module LifecycleSteps {
  import opened Collections
  import opened Wrappers
  import opened TaskOrder
  import opened TaskModel
  import opened Scheduler
  import opened Lifecycle
  import opened LifecycleSafety

  // ---------------------------------------------------------------- coroutines of one task

  lemma StartStep(w: World, s: Step)
    requires Inv(w) && Enabled(w, s) && (s.StartSucceeds? || s.StartFails?)
    ensures Inv(Do(w, s))
  {
    hide DbOk, Active, Pending, RecoveryOk, CapacityOk;
    var v, id := Do(w, s), s.id;
    assert TaskOk(w, id);
    StartersServe(w);
    NothingPending(w);
    SamePending(w, v);
    var (state, c) := if s.StartSucceeds? then (RUNNING, Changes())
                      else (FAILED, Changes(exitCode := Some(127), ended := true));
    RowsAre(w.db, id);
    MovedKeeps(w.db, id, {STARTING}, state, c);
    OneTask(w, v, id);
  }

  lemma StartersServe(w: World)
    requires Inv(w) && w.starters != {}
    ensures w.mode.Serving?
  {
  }

  lemma RowsAre(db: Db, id: Id)
    requires DbOk(db)
    ensures id in db.tasks ==> RowOk(db.tasks[id])
  {
  }

  lemma WaitReturnsStep(w: World, s: Step)
    requires Inv(w) && Enabled(w, s) && s.WaitReturns?
    ensures Inv(Do(w, s))
  {
    hide DbOk, Active, Pending, RecoveryOk, CapacityOk;
    var v, id := Do(w, s), s.id;
    assert TaskOk(w, id);
    SamePending(w, v);
    OneTask(w, v, id);
  }

  lemma WaitEndsStep(w: World, s: Step)
    requires Inv(w) && Enabled(w, s) && (s.WaitCommits? || s.WaitFindsNothing?)
    ensures Inv(Do(w, s))
  {
    hide DbOk, Active, Pending, RecoveryOk, CapacityOk;
    var v, id := Do(w, s), s.id;
    assert TaskOk(w, id);
    SamePending(w, v);
    RowsAre(w.db, id);
    var (state, c) := if s.WaitFindsNothing? then (LOST, Changes(ended := true))
                      else (w.waiters[id].state, Changes(exitCode := Some(w.waiters[id].code), ended := true));
    MovedKeeps(w.db, id, ACTIVE, state, c);
    OneTask(w, v, id);
  }

  lemma InterruptStep(w: World, id: Id)
    requires Inv(w) && Enabled(w, Interrupt(id))
    ensures Inv(Do(w, Interrupt(id)))
  {
    hide DbOk, Active, Pending, RecoveryOk, CapacityOk, TaskOk;
    var v := Do(w, Interrupt(id));
    assert TaskOk(w, id);
    NothingPending(v);
    RowsAre(w.db, id);
    var t := w.db.tasks[id];
    if t.state == QUEUED {
      MovedKeeps(w.db, id, {QUEUED}, CANCELLED, Changes(stage := Some(QueuedStage), ended := true));
      CancelledTaskOk(w, v, id);
      OneTask(w, v, id);
    } else if t.state in {STARTING, RUNNING} && id !in w.interrupts {
      RequestedKeeps(w.db, id);
      RequestedTaskOk(w, v, id);
      OneTask(w, v, id);
    }
  }

  lemma CancelledTaskOk(w: World, v: World, id: Id)
    requires DbOk(w.db) && TaskOk(w, id) && id in w.db.tasks && Pending(v) == []
    requires w.db.tasks[id].state == QUEUED && v == DoInterrupt(w, id)
    ensures TaskOk(v, id)
  {
    hide DbOk, Pending;
  }

  lemma RequestedTaskOk(w: World, v: World, id: Id)
    requires DbOk(w.db) && TaskOk(w, id) && id in w.db.tasks && w.mode.Serving? && Pending(v) == []
    requires w.db.tasks[id].state in {STARTING, RUNNING} && id !in w.interrupts && v == DoInterrupt(w, id)
    ensures TaskOk(v, id)
  {
    hide DbOk, Pending;
  }

  /** A stop request persists the effective actions before the stage that points at them. */
  lemma RequestedKeeps(db: Db, id: Id)
    requires DbOk(db) && CanTransition(db, id, {STARTING, RUNNING})
    ensures var after := Moved(WithStop(db, id, DEFAULT_ACTIONS), id, {STARTING, RUNNING},
                STOPPING, Changes(stage := Some(Requested)));
            && DbOk(after) && after.tasks.Keys == db.tasks.Keys
            && Active(after) <= Active(db) && |Active(after)| <= |Active(db)|
  {
    hide DbOk, Active;
    RowsAre(db, id);
    StopKeeps(db, id, DEFAULT_ACTIONS);
    var stopped := WithStop(db, id, DEFAULT_ACTIONS);
    RowsAre(stopped, id);
    MovedKeeps(stopped, id, {STARTING, RUNNING}, STOPPING, Changes(stage := Some(Requested)));
  }

  lemma SequenceStep(w: World, s: Step)
    requires Inv(w) && Enabled(w, s) && (s.SequenceBegins? || s.SequenceApplies?)
    ensures Inv(Do(w, s))
  {
    hide DbOk, Active, Pending, RecoveryOk, CapacityOk, TaskOk;
    var v, id := Do(w, s), s.id;
    assert TaskOk(w, id);
    SamePending(w, v);
    SequenceTaskOk(w, s);
    OneTask(w, v, id);
  }

  lemma SequenceTaskOk(w: World, s: Step)
    requires DbOk(w.db) && Enabled(w, s) && (s.SequenceBegins? || s.SequenceApplies?) && TaskOk(w, s.id)
    requires Pending(Do(w, s)) == Pending(w)
    ensures TaskOk(Do(w, s), s.id)
  {
    hide DbOk, Pending;
    RowsAre(w.db, s.id);
  }

  lemma EscalationStep(w: World, s: Step)
    requires Inv(w) && Enabled(w, s) && (s.SequencePersists? || s.SequenceKills?)
    ensures Inv(Do(w, s))
  {
    hide DbOk, Active, Pending, RecoveryOk, CapacityOk, TaskOk;
    var v, id := Do(w, s), s.id;
    assert TaskOk(w, id);
    SamePending(w, v);
    RowsAre(w.db, id);
    var q := w.interrupts[id];
    if !IsOver(w.db, id) {
      var stage := if s.SequencePersists? then StopAt(q.index) else Sigkill;
      EscalatedRow(w, s);
      MovedKeeps(w.db, id, ACTIVE, STOPPING, Changes(stage := Some(stage)));
    }
    EscalatedTaskOk(w, s);
    OneTask(w, v, id);
  }

  lemma EscalatedRow(w: World, s: Step)
    requires Enabled(w, s) && (s.SequencePersists? || s.SequenceKills?) && TaskOk(w, s.id) && !IsOver(w.db, s.id)
    ensures IsActive(w.db, s.id) && w.db.tasks[s.id].stop == Some(w.interrupts[s.id].actions)
  {
    hide Pending;
    assert w.db.tasks[s.id].state == STOPPING;
  }

  lemma EscalatedTaskOk(w: World, s: Step)
    requires DbOk(w.db) && Enabled(w, s) && (s.SequencePersists? || s.SequenceKills?) && TaskOk(w, s.id)
    requires Pending(Do(w, s)) == Pending(w)
    ensures TaskOk(Do(w, s), s.id)
  {
    hide DbOk, Pending;
    RowsAre(w.db, s.id);
  }

  lemma ForcedStep(w: World, s: Step)
    requires Inv(w) && Enabled(w, s) && (s.ExitConfirmed? || s.ShutdownKills?)
    ensures Inv(Do(w, s))
  {
    hide DbOk, Active, Pending, RecoveryOk, CapacityOk, TaskOk;
    var v, id := Do(w, s), s.id;
    assert TaskOk(w, id);
    SamePending(w, v);
    RowsAre(w.db, id);
    if s.ExitConfirmed? {
      MovedKeeps(w.db, id, {STOPPING}, CANCELLED, Changes(exitCode := Some(s.code), ended := true));
    } else {
      MovedKeeps(w.db, id, ACTIVE, STOPPING, Changes(stage := Some(Sigkill)));
    }
    ForcedTaskOk(w, s);
    OneTask(w, v, id);
  }

  lemma ForcedTaskOk(w: World, s: Step)
    requires DbOk(w.db) && Enabled(w, s) && (s.ExitConfirmed? || s.ShutdownKills?) && TaskOk(w, s.id)
    requires Pending(Do(w, s)) == Pending(w)
    ensures TaskOk(Do(w, s), s.id)
  {
    hide DbOk, Pending;
    RowsAre(w.db, s.id);
  }

  /** A task that loses its stop sequence is remembered as one that did. */
  lemma LostStep(w: World, id: Id)
    requires Inv(w) && Enabled(w, SequenceLost(id))
    ensures Inv(Do(w, SequenceLost(id)))
  {
    hide DbOk, Active, Pending, RecoveryOk, CapacityOk;
    var v := Do(w, SequenceLost(id));
    assert TaskOk(w, id);
    SamePending(w, v);
    PendingIsUnattended(w, id);
    OneTask(w, v, id);
  }

  lemma PendingIsUnattended(w: World, id: Id)
    requires Inv(w) && Attended(w, id)
    ensures id !in Pending(w)
  {
    hide DbOk, CapacityOk, TaskOk, Sorted, Active;
  }

  lemma PurgeStep(w: World, id: Id)
    requires Inv(w) && Enabled(w, Purge(id))
    ensures Inv(Do(w, Purge(id)))
  {
    hide DbOk, Active, Pending, RecoveryOk, CapacityOk;
    var v := Do(w, Purge(id));
    assert TaskOk(w, id);
    NothingPending(v);
    PurgeKeeps(w.db, id);
    OneTask(w, v, id);
  }

  // ---------------------------------------------------------------- steps of the service

  lemma NothingPending(w: World)
    requires w.mode.Serving?
    ensures Pending(w) == []
  {
  }

  lemma SubmitStep(w: World, s: Step)
    requires Inv(w) && Enabled(w, s) && s.Submit?
    ensures Inv(Do(w, s))
  {
    hide DbOk, Pending, Active;
    var v := Do(w, s);
    SubmitKeeps(w.db, s.id, s.keys, s.stop);
    NothingPending(w);
    NothingPending(v);
    forall id ensures TaskOk(v, id) {
      assert TaskOk(w, id);
      if id != s.id {
        SameTaskOk(w, v, id);
      }
    }
  }

  lemma ScheduleStep(w: World)
    requires Inv(w) && Enabled(w, Schedule)
    ensures Inv(Do(w, Schedule))
  {
    hide DbOk, Pending, Active, Tick;
    var v := Do(w, Schedule);
    TickKeeps(w.db, w.limit, w.cursor);
    NothingPending(w);
    NothingPending(v);
    var started := Tick(w.db, w.limit, w.cursor).started;
    forall id | id in Elements(started) ensures id in w.db.tasks {
      assert id in started;
    }
    forall id ensures TaskOk(v, id) {
      assert TaskOk(w, id);
      assert id in Elements(started) <==> id in started;
      if id !in started {
        SameTaskOk(w, v, id);
      }
    }
  }

  // ---------------------------------------------------------------- crash and recovery

  lemma CrashStep(w: World, s: Step)
    requires Inv(w) && Enabled(w, s) && s.Crash?
    ensures Inv(Do(w, s))
  {
    hide DbOk, Sorted, Active;
    var v := Do(w, s);
    var targets := Sorted(Active(w.db));
    assert targets[0..] == targets && targets[..0] == [];
    assert Pending(v) == targets;
    ActiveMembers(w.db);
    forall id ensures TaskOk(v, id) {
      assert TaskOk(w, id);
    }
  }

  lemma ActiveMembers(db: Db)
    ensures forall id :: id in Sorted(Active(db)) <==> IsActive(db, id)
    ensures forall id :: id in Active(db) <==> IsActive(db, id)
  {
    forall id ensures id in Sorted(Active(db)) <==> IsActive(db, id) {
      assert id in Elements(Sorted(Active(db))) <==> id in Active(db);
    }
  }

  /** While recovery runs, the active tasks behind its cursor are exactly those still to visit. */
  lemma PendingIsBehindCursor(w: World)
    requires w.mode.Recovering? && w.mode.page == [] && RecoveryOk(w)
    ensures Sorted(After(Active(w.db), w.mode.cursor)) == Pending(w)
  {
    hide Sorted, Attended, After;
    var targets := Sorted(w.history.targets);
    var n := |w.history.visited|;
    if n == 0 {
      assert targets[0..] == targets;
      AfterNothing(Active(w.db));
      assert Active(w.db) == w.history.targets by {
        forall id | id in w.history.targets ensures id in Active(w.db) {
          assert id in Elements(targets) && id in Pending(w);
        }
      }
    } else {
      RestIsAfter(w.history.targets, n);
      AfterOfActive(w.db, w.history.targets, w.mode.cursor);
    }
  }

  lemma AfterNothing(s: set<Id>)
    ensures After(s, None) == s
  {
  }

  /** Tasks behind a cursor that are all active are the active ones behind it. */
  lemma AfterOfActive(db: Db, targets: set<Id>, cursor: Option<Id>)
    requires Active(db) <= targets
    requires forall id :: id in Sorted(After(targets, cursor)) ==> IsActive(db, id)
    ensures After(Active(db), cursor) == After(targets, cursor)
  {
    var rest := After(targets, cursor);
    forall id | id in rest ensures id in Active(db) {
      assert id in Elements(Sorted(rest));
      assert id in Sorted(rest);
    }
  }

  lemma FetchStep(w: World)
    requires Inv(w) && Enabled(w, FetchPage)
    ensures Inv(Do(w, FetchPage))
  {
    hide TaskOk, DbOk, Sorted, Active, Pending, CapacityOk, IsActive, Attended;
    var v := Do(w, FetchPage);
    PendingIsBehindCursor(w);
    SamePendingPage(w, v);
    forall id ensures TaskOk(v, id) {
      assert TaskOk(w, id);
      SameTaskOk(w, v, id);
    }
    FetchedPage(w, v);
    assert CapacityOk(v) by { CapacityKept(w, v); }
  }

  lemma SamePendingPage(w: World, v: World)
    requires w.mode.Recovering? && v.mode.Recovering?
    requires v.history == w.history
    ensures Pending(v) == Pending(w)
  {
  }

  lemma FetchedPage(w: World, v: World)
    requires w.mode.Recovering? && w.mode.page == [] && RecoveryOk(w) && Enabled(w, FetchPage) && v == Do(w, FetchPage)
    requires Sorted(After(Active(w.db), w.mode.cursor)) == Pending(w) == Pending(v)
    ensures RecoveryOk(v)
  {
    hide Sorted, After, Active, IsActive, Pending, Take, Do, Enabled;
    var targets := Sorted(w.history.targets);
    var n := |w.history.visited|;
    assert Pending(w) == targets[n..] by { PendingIs(w); }
    var page := Take(targets[n..], TASK_PAGE_SIZE);
    TakenNext(targets, n, TASK_PAGE_SIZE);
    FetchIs(w, v, page);
    assert w.history.visited == targets[..n] by {
      assert w.history.visited + [] == w.history.visited;
    }
  }

  lemma FetchIs(w: World, v: World, page: seq<Id>)
    requires Enabled(w, FetchPage) && v == Do(w, FetchPage)
    requires page == Take(Sorted(After(Active(w.db), w.mode.cursor)), TASK_PAGE_SIZE)
    ensures v.db == w.db && v.starters == w.starters && v.waiters == w.waiters && v.interrupts == w.interrupts
    ensures v.history == w.history && v.mode.Recovering? && v.mode.page == page
    ensures v.mode.cursor == if page == [] then w.mode.cursor else Some(page[|page| - 1])
    ensures v.mode.more == (|page| == TASK_PAGE_SIZE)
  {
    hide Take, Sorted, After, Active;
  }

  /** The first elements behind position `n` continue the first `n`. */
  lemma TakenNext(targets: seq<Id>, n: nat, size: nat)
    requires n <= |targets| && size > 0
    ensures var page := Take(targets[n..], size);
            && n + |page| <= |targets| && targets[..n] + page == targets[..n + |page|]
            && (page != [] ==> page[|page| - 1] == targets[n + |page| - 1])
            && (|page| != size ==> n + |page| == |targets|)
            && (page == [] ==> n == |targets|)
  {
  }

  lemma PendingIs(w: World)
    requires w.mode.Recovering? && |w.history.visited| <= |w.history.targets|
    ensures Pending(w) == Sorted(w.history.targets)[|w.history.visited|..]
  {
  }

  lemma RecoverStep(w: World, s: Step)
    requires Inv(w) && Enabled(w, s) && s.RecoverNext?
    ensures Inv(Do(w, s))
  {
    hide DbOk, Active, Sorted, Pending, CapacityOk, RecoveryOk, TaskOk, Assign, Outcome, ReportOf;
    var v := Do(w, s);
    var id := w.mode.page[0];
    NextIsPending(w, v);
    assert TaskOk(w, id);
    var report := ReportOf(w.mode.rebooted, s.completed, s.running);
    RecoveredRow(w, id, report);
    KnownTargets(w, id);
    RecoveredTasks(w, v, id, report);
    assert CapacityOk(v) by { CapacityKept(w, v); }
    RecoveryKept(w, v, id);
  }

  lemma RecoveredTasks(w: World, v: World, id: Id, report: Report)
    requires DbOk(w.db) && IsActive(w.db, id) && !Attended(w, id) && w.mode.Recovering? && v.mode.Recovering?
    requires id in Pending(w) && forall other :: TaskOk(w, other)
    requires var d := DoRecover(w, id, report);
             v.db == d.db && v.starters == d.starters && v.waiters == d.waiters && v.interrupts == d.interrupts
    requires v.history.attempted == w.history.attempted && v.history.lost == w.history.lost
    requires forall other :: other in Pending(v) <==> other in Pending(w) && other != id
    ensures forall other :: TaskOk(v, other)
  {
    hide DbOk, Pending, TaskOk;
    forall other ensures TaskOk(v, other) {
      assert TaskOk(w, other);
      if other == id {
        RecoveredTaskOk(w, v, id, report);
      } else {
        AlmostSameTaskOk(w, v, other);
      }
    }
  }

  lemma RecoveredTaskOk(w: World, v: World, id: Id, report: Report)
    requires DbOk(w.db) && TaskOk(w, id) && IsActive(w.db, id) && !Attended(w, id)
    requires var d := DoRecover(w, id, report);
             v.db == d.db && v.starters == d.starters && v.waiters == d.waiters && v.interrupts == d.interrupts
    requires v.history.attempted == w.history.attempted && v.history.lost == w.history.lost
    requires id in Pending(w) && id !in Pending(v)
    ensures TaskOk(v, id)
  {
    hide DbOk, Pending;
    RowsAre(w.db, id);
  }

  lemma AlmostSameTaskOk(w: World, v: World, id: Id)
    requires TaskOk(w, id) && SameFor(w, v, id) && (id in Pending(v) <==> id in Pending(w))
    requires v.mode.Recovering? ==> w.mode.Recovering?
    ensures TaskOk(v, id)
  {
    hide Pending;
  }

  lemma KnownTargets(w: World, id: Id)
    requires Inv(w) && IsActive(w.db, id)
    ensures id in w.history.used
  {
  }

  lemma RecoveryKept(w: World, v: World, id: Id)
    requires w.mode.Recovering? && w.mode.page != [] && RecoveryOk(w) && id == w.mode.page[0]
    requires v.mode == w.mode.(page := w.mode.page[1..]) && v.starters == w.starters
    requires v.history == w.history.(visited := w.history.visited + [id])
    requires Active(v.db) <= Active(w.db)
    requires forall other :: other in Pending(v) <==> other in Pending(w) && other != id
    requires forall other :: other != id ==>
            IsActive(v.db, other) == IsActive(w.db, other) && Attended(v, other) == Attended(w, other)
    requires forall other :: other in v.db.tasks && v.db.tasks[other].state == QUEUED ==>
               other in w.db.tasks && w.db.tasks[other].state == QUEUED
    ensures RecoveryOk(v)
  {
    hide Sorted, Active, Pending, IsActive, Attended;
    assert v.history.visited + v.mode.page == w.history.visited + w.mode.page;
  }

  lemma CapacityKept(w: World, v: World)
    requires CapacityOk(w) && v.limit == w.limit && v.history.peak == w.history.peak && |Active(v.db)| <= |Active(w.db)|
    ensures CapacityOk(v)
  {
  }

  /** The next row of the page is the first task still to visit. */
  lemma NextIsPending(w: World, v: World)
    requires w.mode.Recovering? && w.mode.page != [] && RecoveryOk(w)
    requires v.mode == w.mode.(page := w.mode.page[1..]) && v.history.targets == w.history.targets
    requires v.history.visited == w.history.visited + [w.mode.page[0]]
    ensures w.mode.page[0] in Pending(w) && IsActive(w.db, w.mode.page[0]) && !Attended(w, w.mode.page[0])
    ensures forall other :: other in Pending(v) <==> other in Pending(w) && other != w.mode.page[0]
  {
    hide IsActive, Active, Sorted, Attended;
    var targets := Sorted(w.history.targets);
    var n, id := |w.history.visited|, w.mode.page[0];
    assert (w.history.visited + w.mode.page)[n] == targets[n];
    assert Pending(w) == targets[n..] && Pending(v) == targets[n + 1..];
    HeadOfRest(targets, n);
  }

  lemma HeadOfRest(all: seq<Id>, n: nat)
    requires Ascending(all) && n < |all|
    ensures all[n] in all[n..]
    ensures forall x :: x in all[n + 1..] <==> x in all[n..] && x != all[n]
  {
    var rest := all[n + 1..];
    assert all[n..] == [all[n]] + rest;
    assert forall k :: 0 <= k < |rest| ==> Before(all[n], rest[k]);
  }

  /** Recovery ends a task or attends to it, and keeps the tables sound. */
  lemma RecoveredRow(w: World, id: Id, report: Report)
    requires DbOk(w.db) && IsActive(w.db, id) && !Attended(w, id)
    ensures var v := DoRecover(w, id, report);
            && DbOk(v.db) && v.db.tasks.Keys == w.db.tasks.Keys && Active(v.db) <= Active(w.db)
            && |Active(v.db)| <= |Active(w.db)|
            && (report.Alive? ==> v.db == w.db) && (!report.Alive? ==> IsOver(v.db, id))
  {
    hide DbOk, Active;
    RowsAre(w.db, id);
    var stage := w.db.tasks[id].stage;
    match report {
      case Finished(code) =>
        MovedKeeps(w.db, id, ACTIVE, Outcome(code, stage), Changes(exitCode := Some(code), ended := true));
      case Alive =>
      case Rebooted =>
        MovedKeeps(w.db, id, ACTIVE, LOST, Changes(ended := true));
      case Gone =>
        if stage == Some(Sigkill) {
          MovedKeeps(w.db, id, ACTIVE, CANCELLED, Changes(exitCode := Some(137), ended := true));
        } else {
          MovedKeeps(w.db, id, ACTIVE, LOST, Changes(ended := true));
        }
    }
  }

  lemma RecoveryEndsStep(w: World)
    requires Inv(w) && Enabled(w, RecoveryEnds)
    ensures Inv(Do(w, RecoveryEnds))
  {
    hide DbOk, Active, Sorted;
    var v := Do(w, RecoveryEnds);
    assert w.history.visited + [] == w.history.visited;
    assert Pending(w) == [] && Pending(v) == [];
    forall id ensures TaskOk(v, id) {
      assert TaskOk(w, id);
      SameTaskOk(w, v, id);
    }
  }

  // ---------------------------------------------------------------- all steps

  lemma StepKeeps(w: World, s: Step)
    requires Inv(w) && Enabled(w, s)
    ensures Inv(Do(w, s))
  {
    hide Inv, Enabled, Do;
    match s
    case Submit(_, _, _) => SubmitStep(w, s);
    case Schedule => ScheduleStep(w);
    case StartSucceeds(_) => StartStep(w, s);
    case StartFails(_) => StartStep(w, s);
    case WaitReturns(_, _) => WaitReturnsStep(w, s);
    case WaitCommits(_) => WaitEndsStep(w, s);
    case WaitFindsNothing(_) => WaitEndsStep(w, s);
    case Interrupt(id) => InterruptStep(w, id);
    case SequenceBegins(_) => SequenceStep(w, s);
    case SequenceApplies(_) => SequenceStep(w, s);
    case SequencePersists(_) => EscalationStep(w, s);
    case SequenceKills(_) => EscalationStep(w, s);
    case ExitConfirmed(_, _) => ForcedStep(w, s);
    case ShutdownKills(_) => ForcedStep(w, s);
    case SequenceLost(id) => LostStep(w, id);
    case Purge(id) => PurgeStep(w, id);
    case Crash(_, _) => CrashStep(w, s);
    case FetchPage => FetchStep(w);
    case RecoverNext(_, _) => RecoverStep(w, s);
    case RecoveryEnds => RecoveryEndsStep(w);
  }

  lemma InitialOk()
    ensures Inv(INITIAL)
  {
  }
}
