/** When exactly a task loses everything that looks after it: service.py `_interrupt_sequence`,
    `_confirm_forced_exit` and `shutdown_all` do not catch an error of the executor's forced kill. */
module Abandonment {
  import opened Wrappers
  import opened TaskOrder
  import opened TaskModel
  import opened Scheduler
  import opened Lifecycle
  import opened LifecycleSafety
  import opened LifecycleSteps
  import opened LifecycleRuns
  import opened FirstSteps

  /** The two kinds of step that take the last coroutine away from an active task. */
  predicate Abandons(w: World, s: Step, id: Id) {
    && IsActive(w.db, id) && id !in w.waiters
    && (|| (s == SequenceLost(id) && id in w.interrupts && id !in w.starters)
        || (s == StartFails(id) && id in w.starters && w.db.tasks[id].state == STOPPING && id !in w.interrupts))
  }

  /** An attended task that stays active is left unattended by a step if and only if that step loses its
      stop sequence, or is the failure of its start after it was stopped and has lost its sequence. */
  lemma StepAbandonsExactlyWhen(w: World, s: Step, id: Id)
    requires Inv(w) && Enabled(w, s) && !s.Crash? && Attended(w, id)
    ensures Abandons(w, s, id) ==> IsActive(Do(w, s).db, id)
    ensures IsActive(Do(w, s).db, id) ==> (!Attended(Do(w, s), id) <==> Abandons(w, s, id))
  {
    hide DbOk, Inv, TaskOk, RecoveryOk, Pending, Do, Enabled, Abandons, Attended, IsActive;
    assert TaskOk(w, id) && DbOk(w.db) by { InvParts(w); }
    match s {
      case StartSucceeds(x) => StarterAbandons(w, s, id);
      case StartFails(x) => StarterAbandons(w, s, id);
      case WaitReturns(x, _) => WaiterAbandons(w, s, id);
      case WaitCommits(x) =>
        assert TaskOk(w, x) by { InvParts(w); }
        WaiterAbandons(w, s, id);
      case WaitFindsNothing(x) => WaiterAbandons(w, s, id);
      case RecoverNext(completed, running) => RecoverAttends(w, completed, running, id);
      case _ => if IsOfSequence(s) { SequenceAbandons(w, s, id); } else { OtherAttends(w, s, id); }
    }
  }

  lemma StarterAbandons(w: World, s: Step, id: Id)
    requires (s.StartSucceeds? || s.StartFails?) && Enabled(w, s) && TaskOk(w, id) && Attended(w, id)
    ensures Abandons(w, s, id) ==> IsActive(Do(w, s).db, id)
    ensures IsActive(Do(w, s).db, id) ==> (!Attended(Do(w, s), id) <==> Abandons(w, s, id))
  {
    hide Pending, AttemptedBy;
  }

  lemma WaiterAbandons(w: World, s: Step, id: Id)
    requires (s.WaitReturns? || s.WaitCommits? || s.WaitFindsNothing?) && Enabled(w, s) && Attended(w, id)
    requires s.WaitCommits? ==> TaskOk(w, s.id)
    ensures IsActive(Do(w, s).db, id) ==> Attended(Do(w, s), id)
    ensures !Abandons(w, s, id)
  {
    hide TaskOk;
    if s.WaitCommits? {
      DecidedRank(w, s.id);
    }
  }

  lemma SequenceAbandons(w: World, s: Step, id: Id)
    requires IsOfSequence(s) && Enabled(w, s) && TaskOk(w, id) && Attended(w, id)
    ensures Abandons(w, s, id) ==> IsActive(Do(w, s).db, id)
    ensures IsActive(Do(w, s).db, id) ==> (!Attended(Do(w, s), id) <==> Abandons(w, s, id))
  {
    hide Pending, AttemptedBy;
  }

  lemma RecoverAttends(w: World, completed: Option<int>, running: bool, id: Id)
    requires Inv(w) && Enabled(w, RecoverNext(completed, running)) && Attended(w, id)
    ensures Attended(Do(w, RecoverNext(completed, running)), id)
    ensures !Abandons(w, RecoverNext(completed, running), id)
  {
    hide Inv, ReportOf;
  }

  lemma OtherAttends(w: World, s: Step, id: Id)
    requires Enabled(w, s) && !IsOfSequence(s) && !s.Crash? && !s.RecoverNext? && Attended(w, id)
    requires !s.StartSucceeds? && !s.StartFails? && !s.WaitReturns? && !s.WaitCommits? && !s.WaitFindsNothing?
    ensures Attended(Do(w, s), id) && !Abandons(w, s, id)
  {
    hide Tick, Active, WithoutEvents;
  }

  /** Nothing but a restart or the forced kill of a shutdown comes back to an abandoned task: its row stays as it is. */
  lemma AbandonedStays(w: World, s: Step, id: Id)
    requires Inv(w) && Enabled(w, s) && w.mode.Serving? && IsActive(w.db, id) && !Attended(w, id)
    requires !s.Crash? && s != ShutdownKills(id)
    ensures var v := Do(w, s);
            v.mode.Serving? && IsActive(v.db, id) && !Attended(v, id) && v.db.tasks[id] == w.db.tasks[id]
  {
    hide DbOk, Tick, Active, Inv, WithoutEvents, TaskOk;
    InvDb(w);
    assert TaskOk(w, id) by { InvParts(w); }
    if s.Schedule? {
      TickKeeps(w.db, w.limit, w.cursor);
      NotStarted(w, id);
    } else if s.Interrupt? {
      LostIsStopping(w, id);
    }
  }

  lemma LostIsStopping(w: World, id: Id)
    requires TaskOk(w, id) && w.mode.Serving? && IsActive(w.db, id) && !Attended(w, id)
    ensures w.db.tasks[id].state == STOPPING
  {
  }

  lemma NotStarted(w: World, id: Id)
    requires DbOk(w.db) && IsActive(w.db, id)
    ensures id !in Elements(Tick(w.db, w.limit, w.cursor).started)
  {
    hide DbOk, Tick, Active;
    TickKeeps(w.db, w.limit, w.cursor);
  }

  // ---------------------------------------------------------------- over runs

  /** At `k` the task was abandoned, and since then neither a restart nor the kill of a shutdown came. */
  ghost predicate AbandonedAt(ws: seq<World>, ss: seq<Step>, k: nat, j: nat, id: Id)
    requires j <= |ss| && |ss| < |ws|
  {
    && k < j && Abandons(ws[k], ss[k], id)
    && forall n :: k < n < j ==> !ss[n].Crash? && ss[n] != ShutdownKills(id)
  }

  /** In every run, at every moment at which the controller serves, an active task is without any coroutine
      that looks after it if and only if it was abandoned before and has not been taken up since. */
  lemma AbandonedExactlyWhen(ws: seq<World>, ss: seq<Step>, j: nat, id: Id)
    requires IsRun(ws, ss) && j < |ws| && ws[j].mode.Serving? && IsActive(ws[j].db, id)
    ensures !Attended(ws[j], id) <==> exists k :: AbandonedAt(ws, ss, k, j, id)
  {
    hide Inv, Enabled, Do, Attended, AbandonedAt;
    if !Attended(ws[j], id) {
      var k := WasAbandoned(ws, ss, j, id);
    }
    forall k | AbandonedAt(ws, ss, k, j, id) ensures !Attended(ws[j], id) {
      RemainsAbandoned(ws, ss, k, j, id);
    }
  }

  lemma {:induction false} RemainsAbandoned(ws: seq<World>, ss: seq<Step>, k: nat, j: nat, id: Id)
    requires IsRun(ws, ss) && j < |ws| && AbandonedAt(ws, ss, k, j, id)
    ensures ws[j].mode.Serving? && IsActive(ws[j].db, id) && !Attended(ws[j], id)
    decreases j
  {
    hide Inv, Enabled, Do, Attended, Abandons, IsActive;
    if j == k + 1 {
      RunKeeps(ws, ss, k);
      AbandonsWhileServing(ws[k], ss[k], id);
      StepAbandonsExactlyWhen(ws[k], ss[k], id);
    } else {
      RemainsAbandoned(ws, ss, k, j - 1, id);
      RunKeeps(ws, ss, j - 1);
      AbandonedStays(ws[j - 1], ss[j - 1], id);
    }
  }

  lemma AbandonsWhileServing(w: World, s: Step, id: Id)
    requires Inv(w) && Enabled(w, s) && Abandons(w, s, id)
    ensures Attended(w, id) && !s.Crash? && Do(w, s).mode.Serving?
  {
    hide DbOk, RecoveryOk, CapacityOk, Inv, TaskOk, Pending;
    assert TaskOk(w, id) && (w.mode.Recovering? ==> RecoveryOk(w)) by { InvParts(w); }
    if w.mode.Recovering? {
      RecoveringWaits(w, id);
    }
  }

  lemma RecoveringWaits(w: World, id: Id)
    requires w.mode.Recovering? && RecoveryOk(w) && TaskOk(w, id) && IsActive(w.db, id) && Attended(w, id)
    ensures id in w.waiters
  {
    hide Pending;
  }

  lemma {:induction false} WasAbandoned(ws: seq<World>, ss: seq<Step>, j: nat, id: Id) returns (k: nat)
    requires IsRun(ws, ss) && j < |ws| && ws[j].mode.Serving? && IsActive(ws[j].db, id) && !Attended(ws[j], id)
    ensures AbandonedAt(ws, ss, k, j, id)
    decreases j
  {
    hide Inv, Enabled, Do, Attended, Abandons, IsActive;
    assert 0 < j by { NothingAtFirst(id); }
    var w, s := ws[j - 1], ss[j - 1];
    RunKeeps(ws, ss, j - 1);
    UnattendedBefore(w, s, id);
    if Attended(w, id) {
      StepAbandonsExactlyWhen(w, s, id);
      k := j - 1;
    } else {
      k := WasAbandoned(ws, ss, j - 1, id);
    }
  }

  lemma NothingAtFirst(id: Id)
    ensures !IsActive(INITIAL.db, id)
  {
  }

  /** Before a step to a serving controller with an unattended active task: the task was active already. */
  lemma UnattendedBefore(w: World, s: Step, id: Id)
    requires Inv(w) && Enabled(w, s)
    requires Do(w, s).mode.Serving? && IsActive(Do(w, s).db, id) && !Attended(Do(w, s), id)
    ensures !s.Crash? && w.mode.Serving? && IsActive(w.db, id) && (!Attended(w, id) ==> s != ShutdownKills(id))
  {
    hide DbOk, Tick, Active, Inv, WithoutEvents, TaskOk, RecoveryOk, Pending;
    InvDb(w);
    if s.Schedule? {
      TickKeeps(w.db, w.limit, w.cursor);
    } else if s == RecoveryEnds {
      RecoveredIsWaitedFor(w, id);
    }
  }

  lemma RecoveredIsWaitedFor(w: World, id: Id)
    requires Inv(w) && Enabled(w, RecoveryEnds) && IsActive(w.db, id)
    ensures id in w.waiters
  {
    hide DbOk, CapacityOk, Sorted, TaskOk;
    assert TaskOk(w, id);
    assert w.history.visited + [] == w.history.visited;
    assert Pending(w) == [];
    StillWaited(w, id);
  }

  lemma StillWaited(w: World, id: Id)
    requires TaskOk(w, id) && w.mode.Recovering? && IsActive(w.db, id) && id !in Pending(w)
    ensures id in w.waiters
  {
    hide Pending;
  }

  // ---------------------------------------------------------------- it happens

  /** A stop that overtakes a start: asked while the start is under way, it comes to the forced kill. */
  lemma Overtakes(w: World, id: Id, actions: seq<StopAction>)
    requires Holds(w, id, Launched(Some(actions)), true, None) && |actions| == 1
    ensures Enabled(w, Interrupt(id))
    ensures var a := Do(w, Interrupt(id));
            && Holds(a, id, Stops(Requested, actions), true, Some(Fresh)) && Enabled(a, SequenceBegins(id))
            && var b := Do(a, SequenceBegins(id));
               Holds(b, id, Stops(Requested, actions), true, Some(Upcoming(actions, 0)))
  {
  }

  lemma Escalates(w: World, id: Id, actions: seq<StopAction>)
    requires Holds(w, id, Stops(Requested, actions), true, Some(Upcoming(actions, 0))) && |actions| == 1
    ensures Enabled(w, SequencePersists(id))
    ensures var a := Do(w, SequencePersists(id));
            && Holds(a, id, Stops(StopAt(0), actions), true, Some(Applying(actions, 0)))
            && Enabled(a, SequenceApplies(id))
            && var b := Do(a, SequenceApplies(id));
               Holds(b, id, Stops(StopAt(0), actions), true, Some(Upcoming(actions, 1)))
  {
  }

  lemma LosesIts(w: World, id: Id, actions: seq<StopAction>)
    requires Holds(w, id, Stops(StopAt(0), actions), true, Some(Upcoming(actions, 1))) && |actions| == 1
    ensures Enabled(w, SequenceKills(id))
    ensures var a := Do(w, SequenceKills(id));
            && Holds(a, id, Stops(Sigkill, actions), true, Some(Killing)) && Enabled(a, SequenceLost(id))
            && var b := Do(a, SequenceLost(id));
               Holds(b, id, Stops(Sigkill, actions), true, None) && Abandons(b, StartFails(id), id)
  {
  }

  lemma FailsToStart(w: World, id: Id, actions: seq<StopAction>)
    requires Holds(w, id, Stops(Sigkill, actions), true, None)
    ensures Enabled(w, StartFails(id))
    ensures var v := Do(w, StartFails(id)); v.mode.Serving? && IsActive(v.db, id) && !Attended(v, id)
  {
  }

  /** Every task can come to be abandoned: it is stopped while it starts, the forced kill raises, and then
      the start fails. */
  lemma AbandonmentHappens(id: Id) returns (ws: seq<World>, ss: seq<Step>)
    ensures IsRun(ws, ss) && ws[|ss|].mode.Serving? && IsActive(ws[|ss|].db, id) && !Attended(ws[|ss|], id)
  {
    hide Do, Enabled, Holds, Attended, Abandons, IsActive;
    var actions := [Signal("SIGINT")];
    ws, ss := StartUnderWay(id, Some(actions));
    Overtakes(ws[|ss|], id, actions);
    ws, ss := Extend(ws, ss, Interrupt(id));
    ws, ss := Extend(ws, ss, SequenceBegins(id));
    Escalates(ws[|ss|], id, actions);
    ws, ss := Extend(ws, ss, SequencePersists(id));
    ws, ss := Extend(ws, ss, SequenceApplies(id));
    LosesIts(ws[|ss|], id, actions);
    ws, ss := Extend(ws, ss, SequenceKills(id));
    ws, ss := Extend(ws, ss, SequenceLost(id));
    FailsToStart(ws[|ss|], id, actions);
    ws, ss := Extend(ws, ss, StartFails(id));
  }
}
