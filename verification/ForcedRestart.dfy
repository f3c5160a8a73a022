/** A forced stop that does not end before the controller does starts over: service.py `shutdown_all`,
    `recover` and `_interrupt_sequence`, with a crash in between. */
module ForcedRestart {
  import opened Wrappers
  import opened TaskOrder
  import opened TaskModel
  import opened Scheduler
  import opened Lifecycle
  import opened LifecycleSafety
  import opened LifecycleSteps
  import opened LifecycleRuns
  import opened FirstSteps

  lemma Forced(w: World, id: Id)
    requires Holds(w, id, Launched(None), true, None)
    ensures Enabled(w, StartSucceeds(id))
    ensures var a := Do(w, StartSucceeds(id));
            && Enabled(a, Interrupt(id)) && Enabled(Do(a, Interrupt(id)), ShutdownKills(id))
            && IsForced(Do(Do(a, Interrupt(id)), ShutdownKills(id)), id)
  {
    var a := Do(w, StartSucceeds(id));
    assert a.db.tasks[id].state == RUNNING && a.interrupts == map[];
    assert Do(a, Interrupt(id)).db.tasks[id].state == STOPPING;
  }

  /** Every task can come to be forced: it is started and stopped, and a shutdown loses patience. */
  lemma ForcedStopHappens(id: Id) returns (ws: seq<World>, ss: seq<Step>)
    ensures IsRun(ws, ss) && IsForced(ws[|ss|], id)
  {
    hide Do, Enabled, IsForced;
    ws, ss := StartUnderWay(id, None);
    Forced(ws[|ss|], id);
    ws, ss := Extend(ws, ss, StartSucceeds(id));
    ws, ss := Extend(ws, ss, Interrupt(id));
    ws, ss := Extend(ws, ss, ShutdownKills(id));
  }

  // ---------------------------------------------------------------- the restart

  /** Recovery is under way, on the same boot, and has still to come to the forced task `id`. */
  ghost predicate IsAhead(w: World, id: Id) {
    IsForced(w, id) && w.mode.Recovering? && !w.mode.rebooted && id in Pending(w)
  }

  /** The forced task `id` has a new stop sequence. */
  predicate IsResumed(w: World, id: Id) {
    IsForced(w, id) && id in w.interrupts && w.interrupts[id] == Fresh
  }

  lemma CrashedForced(w: World, id: Id)
    requires IsForced(w, id)
    ensures Enabled(w, Crash(false, None)) && IsAhead(Do(w, Crash(false, None)), id)
  {
    hide Sorted, Active;
    ActiveMembers(w.db);
    var v := Do(w, Crash(false, None));
    var targets := Sorted(Active(w.db));
    assert targets[0..] == targets && Pending(v) == targets;
  }

  lemma Fetched(w: World, id: Id)
    requires Inv(w) && IsAhead(w, id) && w.mode.page == []
    ensures Enabled(w, FetchPage)
    ensures var v := Do(w, FetchPage); IsAhead(v, id) && v.mode.page != [] && Pending(v) == Pending(w)
  {
    hide Inv, Active, Sorted, After, TaskOk, DbOk, CapacityOk;
    assert RecoveryOk(w) by { InvParts(w); }
    assert w.history.visited + [] == w.history.visited;
    PendingIsBehindCursor(w);
  }

  /** Recovery finds the next task of its page running. */
  lemma FoundAlive(w: World, id: Id)
    requires Inv(w) && IsAhead(w, id) && w.mode.page != []
    ensures Enabled(w, RecoverNext(None, true))
    ensures var v := Do(w, RecoverNext(None, true));
            if w.mode.page[0] == id then IsResumed(v, id) else IsAhead(v, id) && |Pending(v)| < |Pending(w)|
  {
    hide Inv, Active, Sorted, TaskOk, DbOk, CapacityOk;
    assert RecoveryOk(w) by { InvParts(w); }
    NextIsPending(w, Do(w, RecoverNext(None, true)));
  }

  /** Recovery comes to every forced task that is still running. */
  lemma {:induction false} RecoveryComes(ws: seq<World>, ss: seq<Step>, id: Id) returns (vs: seq<World>, ts: seq<Step>)
    requires IsRun(ws, ss) && IsAhead(ws[|ss|], id)
    ensures IsRun(vs, ts) && ws <= vs && ss <= ts && IsResumed(vs[|ts|], id)
    decreases |Pending(ws[|ss|])|, ws[|ss|].mode.Recovering? && ws[|ss|].mode.page == []
  {
    hide Inv, Enabled, Do, IsForced, IsResumed, Pending;
    var w := ws[|ss|];
    RunKeeps(ws, ss, |ss|);
    if w.mode.page == [] {
      Fetched(w, id);
      vs, ts := Extend(ws, ss, FetchPage);
      vs, ts := RecoveryComes(vs, ts, id);
    } else {
      FoundAlive(w, id);
      vs, ts := Extend(ws, ss, RecoverNext(None, true));
      if w.mode.page[0] != id {
        vs, ts := RecoveryComes(vs, ts, id);
      }
    }
  }

  lemma StartsOver(w: World, id: Id)
    requires Inv(w) && IsResumed(w, id)
    ensures Enabled(w, SequenceBegins(id))
    ensures var a := Do(w, SequenceBegins(id));
            && Enabled(a, SequencePersists(id)) && Falls(a, SequencePersists(id), id)
            && var b := Do(a, SequencePersists(id));
               IsActive(b.db, id) && b.db.tasks[id].stage == Some(StopAt(0))
  {
    hide Inv, TaskOk, DbOk;
    assert DbOk(w.db) by { InvParts(w); }
    RowsAre(w.db, id);
  }

  /** Every run in which a task is being forced can go on to one in which its stage falls: the controller
      crashes, finds the task still running, and begins its stop again. */
  lemma ForcedStopCanStartOver(ws: seq<World>, ss: seq<Step>, id: Id) returns (vs: seq<World>, ts: seq<Step>)
    requires IsRun(ws, ss) && IsForced(ws[|ss|], id)
    ensures IsRun(vs, ts) && ws <= vs && ss <= ts && |ss| < |ts|
    ensures Falls(vs[|ts| - 1], ts[|ts| - 1], id)
    ensures IsActive(vs[|ts|].db, id) && vs[|ts|].db.tasks[id].stage == Some(StopAt(0))
  {
    hide Inv, Enabled, Do, IsAhead, IsResumed, IsForced, Falls;
    CrashedForced(ws[|ss|], id);
    vs, ts := Extend(ws, ss, Crash(false, None));
    vs, ts := RecoveryComes(vs, ts, id);
    RunKeeps(vs, ts, |ts|);
    StartsOver(vs[|ts|], id);
    vs, ts := Extend(vs, ts, SequenceBegins(id));
    vs, ts := Extend(vs, ts, SequencePersists(id));
  }
}
