/** Runs that begin with one task in empty tables, and runs extended by a step. */
module FirstSteps {
  import opened Wrappers
  import opened TaskOrder
  import opened TaskModel
  import opened Scheduler
  import opened Lifecycle
  import opened LifecycleRuns

  /** The only task is `t`; `starting` if its start is under way, and `q` is its stop sequence. */
  predicate Holds(w: World, id: Id, t: Task, starting: bool, q: Option<Sequence>) {
    && w.db.tasks == map[id := t] && w.mode == Serving && w.waiters == map[]
    && w.starters == (if starting then {id} else {})
    && w.interrupts == (if q.Some? then map[id := q.value] else map[])
  }

  function Waits(stop: Option<seq<StopAction>>): Task {
    Task({}, QUEUED, None, stop, None, false, false)
  }

  function Launched(stop: Option<seq<StopAction>>): Task {
    Task({}, STARTING, None, stop, None, true, false)
  }

  function Stops(stage: Stage, stop: seq<StopAction>): Task {
    Task({}, STOPPING, Some(stage), Some(stop), None, true, false)
  }

  lemma Extend(ws: seq<World>, ss: seq<Step>, s: Step) returns (vs: seq<World>, ts: seq<Step>)
    requires IsRun(ws, ss) && Enabled(ws[|ss|], s)
    ensures IsRun(vs, ts) && ws <= vs && ts == ss + [s] && vs[|ss|] == ws[|ss|] && vs[|ts|] == Do(ws[|ss|], s)
  {
    hide Enabled, Do;
    vs, ts := ws + [Do(ws[|ss|], s)], ss + [s];
  }

  lemma PageOfOne(id: Id, n: nat)
    requires n > 0
    ensures Page({id}, n, None) == [id]
  {
    assert Elements([id]) == {id} by {
      assert [id][0] == id;
    }
    AscendingUnique(Sorted({id}), [id]);
    assert After({id}, None) == {id};
  }

  lemma Submitted(id: Id, stop: Option<seq<StopAction>>)
    requires stop.Some? ==> stop.value != []
    ensures Enabled(INITIAL, Submit(id, {}, stop))
    ensures var v := Do(INITIAL, Submit(id, {}, stop));
            Holds(v, id, Waits(stop), false, None) && v.limit.None? && v.cursor.None?
  {
  }

  lemma Scheduled(w: World, id: Id, stop: Option<seq<StopAction>>)
    requires Holds(w, id, Waits(stop), false, None) && w.limit.None? && w.cursor.None?
    ensures Enabled(w, Schedule) && Holds(Do(w, Schedule), id, Launched(stop), true, None)
  {
    hide Page, Active;
    assert InStates(w.db, {QUEUED}) == {id};
    PageOfOne(id, TASK_PAGE_SIZE);
    assert HeldKeys(w.db) == {};
    assert [id][1..] == [];
    assert CanTransition(w.db, id, {QUEUED});
    assert Walk(w.db, [id], {}, None) == Walked(Launch(w.db, id), 1, [id]);
    assert Elements([id]) == {id} by {
      assert [id][0] == id;
    }
  }

  /** A run in which the task is submitted and its start is under way. */
  lemma StartUnderWay(id: Id, stop: Option<seq<StopAction>>) returns (ws: seq<World>, ss: seq<Step>)
    requires stop.Some? ==> stop.value != []
    ensures IsRun(ws, ss) && Holds(ws[|ss|], id, Launched(stop), true, None)
  {
    hide Do, Enabled;
    Submitted(id, stop);
    ws, ss := Extend([INITIAL], [], Submit(id, {}, stop));
    Scheduled(ws[|ss|], id, stop);
    ws, ss := Extend(ws, ss, Schedule);
  }
}
