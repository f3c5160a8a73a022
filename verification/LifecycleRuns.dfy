/** What holds over whole runs of the task lifecycle, crashes and restarts included. */
module LifecycleRuns {
  import opened Wrappers
  import opened TaskOrder
  import opened TaskModel
  import opened Scheduler
  import opened Lifecycle
  import opened LifecycleSafety
  import opened LifecycleSteps

  /** `ws` are the worlds of a run and `ss` the steps between them. */
  ghost predicate IsRun(ws: seq<World>, ss: seq<Step>) {
    && |ws| == |ss| + 1 && ws[0] == INITIAL
    && forall i :: 0 <= i < |ss| ==> Enabled(ws[i], ss[i]) && ws[i + 1] == Do(ws[i], ss[i])
  }

  lemma {:induction false} RunKeeps(ws: seq<World>, ss: seq<Step>, i: nat)
    requires IsRun(ws, ss) && i < |ws|
    ensures Inv(ws[i])
    decreases i
  {
    hide Inv, Enabled, Do;
    if i == 0 {
      InitialOk();
    } else {
      RunKeeps(ws, ss, i - 1);
      StepKeeps(ws[i - 1], ss[i - 1]);
    }
  }

  /** In no run do two active tasks share a mutex key. */
  lemma MutualExclusion(ws: seq<World>, ss: seq<Step>, i: nat, a: Id, b: Id)
    requires IsRun(ws, ss) && i < |ws| && a != b && IsActive(ws[i].db, a) && IsActive(ws[i].db, b)
    ensures ws[i].db.tasks[a].keys !! ws[i].db.tasks[b].keys
  {
    hide Enabled, Do;
    RunKeeps(ws, ss, i);
  }

  /** The number of active tasks never exceeds the larger of the limit and the number that were
      active when the controller last started. */
  lemma ConcurrencyBounded(ws: seq<World>, ss: seq<Step>, i: nat)
    requires IsRun(ws, ss) && i < |ws| && ws[i].limit.Some?
    ensures |Active(ws[i].db)| <= ws[i].limit.value || |Active(ws[i].db)| <= ws[i].history.peak
  {
    hide Enabled, Do;
    RunKeeps(ws, ss, i);
  }

  /** Rows are truthful: an end time exactly in terminal states, exit codes that agree with the
      outcome, a recorded interrupt behind every stop, and one terminal event per ended task. */
  lemma RowsAreTruthful(ws: seq<World>, ss: seq<Step>, i: nat, id: Id)
    requires IsRun(ws, ss) && i < |ws| && id in ws[i].db.tasks
    ensures var t := ws[i].db.tasks[id];
            && (t.ended <==> t.state in TERMINAL)
            && (t.state == SUCCEEDED ==> t.exitCode == Some(0))
            && (t.state == FAILED ==> t.exitCode.Some? && t.exitCode.value != 0)
            && (t.state in {STOPPING, CANCELLED} ==> t.stage.Some?)
            && TerminalEvents(ws[i].db.events, id) == if t.state in TERMINAL then 1 else 0
  {
    hide Enabled, Do;
    RunKeeps(ws, ss, i);
    assert RowOk(ws[i].db.tasks[id]);
    assert TerminalEvents(ws[i].db.events, id) == TerminalRows(ws[i].db, id);
  }

  /** While the service runs, no active task is ever without a coroutine that looks after it, unless it is
      being stopped and its stop sequence was lost in this life of the controller. */
  lemma NoTaskIsAbandoned(ws: seq<World>, ss: seq<Step>, i: nat, id: Id)
    requires IsRun(ws, ss) && i < |ws| && ws[i].mode.Serving? && IsActive(ws[i].db, id)
    ensures Attended(ws[i], id) || (id in ws[i].history.lost && ws[i].db.tasks[id].state == STOPPING)
  {
    hide Enabled, Do;
    RunKeeps(ws, ss, i);
    assert TaskOk(ws[i], id);
  }

  // ---------------------------------------------------------------- what never goes back

  function StateRank(s: State): nat {
    match s
    case QUEUED => 0
    case STARTING => 1
    case RUNNING => 2
    case STOPPING => 3
    case _ => 4
  }

  /** A row moves forward, keeps its keys and its stop actions, and is final once terminal. */
  ghost predicate Forward(t: Task, u: Task) {
    && StateRank(t.state) <= StateRank(u.state)
    && (t.state in TERMINAL ==> u == t)
    && u.keys == t.keys
    && (t.stop.Some? ==> u.stop == t.stop)
  }

  /** The order of an escalation: none, queued, requested, stop:0, stop:1, ..., sigkill. */
  predicate NotAbove(a: Option<Stage>, b: Option<Stage>) {
    match (a, b)
    case (None, _) => true
    case (_, None) => false
    case (Some(QueuedStage), _) => true
    case (_, Some(QueuedStage)) => false
    case (Some(Requested), _) => true
    case (_, Some(Requested)) => false
    case (Some(StopAt(i)), Some(StopAt(k))) => i <= k
    case (Some(StopAt(_)), Some(Sigkill)) => true
    case (Some(Sigkill), Some(StopAt(_))) => false
    case (Some(Sigkill), Some(Sigkill)) => true
  }

  predicate IsForced(w: World, id: Id) {
    IsActive(w.db, id) && w.db.tasks[id].stage == Some(Sigkill)
  }

  /** A task that is being forced has a sequence that confirms its exit, or had one and has lost it. */
  predicate KillHeld(w: World, id: Id) {
    IsForced(w, id) ==> if id in w.interrupts then w.interrupts[id] == Killing else id in w.history.lost
  }

  /** The one kind of step that lowers a stage: a task that is being forced gets an action persisted. */
  predicate Falls(w: World, s: Step, id: Id) {
    s == SequencePersists(id) && IsForced(w, id)
  }

  lemma StepForward(w: World, s: Step, id: Id)
    requires Inv(w) && Enabled(w, s) && id in w.db.tasks
    ensures id in Do(w, s).db.tasks ==> Forward(w.db.tasks[id], Do(w, s).db.tasks[id])
  {
    hide DbOk, Tick, Active, RecoveryOk, CapacityOk, TaskOk, DoRecover, DoInterrupt, Inv;
    assert DbOk(w.db) && TaskOk(w, if s.WaitCommits? then s.id else id) by { InvParts(w); }
    InvDb(w);
    match s {
      case Schedule => TickKeeps(w.db, w.limit, w.cursor);
      case WaitCommits(x) => DecidedRank(w, x);
      case RecoverNext(completed, running) =>
        RecoverForward(w, w.mode.page[0], ReportOf(w.mode.rebooted, completed, running), id);
      case Interrupt(x) => InterruptForward(w, x, id);
      case _ =>
    }
  }

  lemma InvParts(w: World)
    requires Inv(w)
    ensures DbOk(w.db) && (w.mode.Recovering? ==> RecoveryOk(w)) && forall id :: TaskOk(w, id)
  {
  }

  lemma DecidedRank(w: World, x: Id)
    requires TaskOk(w, x) && x in w.waiters && w.waiters[x].Deciding?
    ensures StateRank(w.waiters[x].state) == 4
  {
  }

  lemma RecoverForward(w: World, x: Id, report: Report, id: Id)
    requires id in w.db.tasks
    ensures id in DoRecover(w, x, report).db.tasks
    ensures Forward(w.db.tasks[id], DoRecover(w, x, report).db.tasks[id])
    ensures DoRecover(w, x, report).db.tasks[id].stage == w.db.tasks[id].stage
  {
  }

  lemma InterruptForward(w: World, x: Id, id: Id)
    requires id in w.db.tasks && x in w.db.tasks
    ensures id in DoInterrupt(w, x).db.tasks && Forward(w.db.tasks[id], DoInterrupt(w, x).db.tasks[id])
  {
  }

  predicate IsOfSequence(s: Step) {
    || s.SequenceBegins? || s.SequencePersists? || s.SequenceApplies? || s.SequenceKills?
    || s.ExitConfirmed? || s.ShutdownKills? || s.SequenceLost?
  }

  /** A step lowers the persisted stage of a task if and only if it persists an action of a task that is
      already being forced. */
  lemma StepFallsExactlyWhen(w: World, s: Step, id: Id)
    requires Inv(w) && Enabled(w, s) && id in w.db.tasks
    ensures id in Do(w, s).db.tasks ==>
              (NotAbove(w.db.tasks[id].stage, Do(w, s).db.tasks[id].stage) <==> !Falls(w, s, id))
    ensures Falls(w, s, id) ==> id in Do(w, s).db.tasks
  {
    hide DbOk, Do, Enabled, Inv, TaskOk;
    InvDb(w);
    if IsOfSequence(s) {
      assert TaskOk(w, s.id) by { InvParts(w); }
      SequenceFallsExactlyWhen(w, s, id);
    } else {
      OtherClimbs(w, s, id);
    }
  }

  lemma SequenceFallsExactlyWhen(w: World, s: Step, id: Id)
    requires IsOfSequence(s) && TaskOk(w, s.id) && Enabled(w, s) && id in w.db.tasks
    ensures id in Do(w, s).db.tasks
    ensures NotAbove(w.db.tasks[id].stage, Do(w, s).db.tasks[id].stage) <==> !Falls(w, s, id)
  {
    hide TaskOk, AttemptedBy;
    SameIsNotAbove(w.db.tasks[id].stage);
    if s.SequencePersists? && IsActive(w.db, s.id) {
      PersistedRank(w, s.id);
    }
  }

  lemma OtherClimbs(w: World, s: Step, id: Id)
    requires DbOk(w.db) && w.db.tasks.Keys <= w.history.used && !IsOfSequence(s) && Enabled(w, s) && id in w.db.tasks
    ensures id in Do(w, s).db.tasks ==> NotAbove(w.db.tasks[id].stage, Do(w, s).db.tasks[id].stage)
  {
    hide DbOk, Tick, Active, DoRecover, DoInterrupt, WithoutEvents, NotAbove;
    SameIsNotAbove(w.db.tasks[id].stage);
    match s {
      case Schedule => TickKeeps(w.db, w.limit, w.cursor);
      case RecoverNext(completed, running) =>
        RecoverForward(w, w.mode.page[0], ReportOf(w.mode.rebooted, completed, running), id);
      case Interrupt(x) => InterruptClimbs(w, x, id);
      case _ =>
    }
  }

  lemma SameIsNotAbove(a: Option<Stage>)
    ensures NotAbove(a, a)
  {
  }

  lemma NotAboveTwice(a: Option<Stage>, b: Option<Stage>, c: Option<Stage>)
    requires NotAbove(a, b) && NotAbove(b, c)
    ensures NotAbove(a, c)
  {
  }

  lemma InterruptClimbs(w: World, x: Id, id: Id)
    requires DbOk(w.db) && x in w.db.tasks && id in w.db.tasks
    ensures var v := DoInterrupt(w, x);
            id in v.db.tasks && NotAbove(w.db.tasks[id].stage, v.db.tasks[id].stage)
  {
    hide DbOk;
    RowsAre(w.db, id);
    SameIsNotAbove(w.db.tasks[id].stage);
  }

  lemma KillStaysHeld(w: World, s: Step, id: Id)
    requires Inv(w) && Enabled(w, s) && KillHeld(w, id) && (s.Crash? ==> !IsForced(w, id))
    requires id in w.db.tasks
    ensures !Falls(w, s, id) && KillHeld(Do(w, s), id)
  {
    hide DbOk, RecoveryOk, Inv, Do, Enabled, KillHeld, TaskOk;
    InvDb(w);
    if IsOfSequence(s) {
      SequenceHolds(w, s, id);
    } else if s.RecoverNext? {
      RecoverHolds(w, s.completed, s.running, id);
    } else {
      OtherHolds(w, s, id);
    }
  }

  /** No step lowers the stage of a task whose forced stop, if it has come to that, is being confirmed;
      and it stays so, unless the controller crashes in the middle of a forced stop. */
  lemma StepClimbs(w: World, s: Step, id: Id)
    requires Inv(w) && Enabled(w, s) && KillHeld(w, id) && (s.Crash? ==> !IsForced(w, id))
    requires id in w.db.tasks
    ensures id in Do(w, s).db.tasks ==> NotAbove(w.db.tasks[id].stage, Do(w, s).db.tasks[id].stage)
    ensures KillHeld(Do(w, s), id)
  {
    hide Inv, Enabled, Do, KillHeld, Falls, NotAbove;
    KillStaysHeld(w, s, id);
    StepFallsExactlyWhen(w, s, id);
  }

  lemma SequenceHolds(w: World, s: Step, id: Id)
    requires IsOfSequence(s) && DbOk(w.db) && Enabled(w, s) && KillHeld(w, id) && id in w.db.tasks
    ensures !Falls(w, s, id) && KillHeld(Do(w, s), id)
  {
    hide DbOk, AttemptedBy;
    RowsAre(w.db, id);
  }

  lemma OtherHolds(w: World, s: Step, id: Id)
    requires DbOk(w.db) && w.db.tasks.Keys <= w.history.used && !IsOfSequence(s) && !s.RecoverNext? && Enabled(w, s)
    requires KillHeld(w, id) && (s.Crash? ==> !IsForced(w, id)) && id in w.db.tasks
    ensures KillHeld(Do(w, s), id)
  {
    hide DbOk, Tick, Active, DoInterrupt, WithoutEvents;
    RowsAre(w.db, id);
    match s {
      case Schedule => TickKeeps(w.db, w.limit, w.cursor);
      case Interrupt(x) => InterruptHolds(w, x, id);
      case _ =>
    }
  }

  lemma InterruptHolds(w: World, x: Id, id: Id)
    requires x in w.db.tasks && id in w.db.tasks && KillHeld(w, id)
    ensures KillHeld(DoInterrupt(w, x), id)
  {
  }

  lemma RecoverHolds(w: World, completed: Option<int>, running: bool, id: Id)
    requires Inv(w) && Enabled(w, RecoverNext(completed, running)) && KillHeld(w, id) && id in w.db.tasks
    ensures KillHeld(Do(w, RecoverNext(completed, running)), id)
  {
    hide Active, Sorted, Pending, DoRecover, ReportOf, IsActive, DbOk, TaskOk, Inv, KillHeld;
    var x, v := w.mode.page[0], Do(w, RecoverNext(completed, running));
    assert TaskOk(w, x) && RecoveryOk(w) by { InvParts(w); }
    NextIsPending(w, v);
    NotLost(w, x);
    OwnerHolds(w, x, ReportOf(w.mode.rebooted, completed, running), id);
    SameHold(DoRecover(w, x, ReportOf(w.mode.rebooted, completed, running)), v, id);
  }

  lemma NotLost(w: World, x: Id)
    requires TaskOk(w, x) && x in Pending(w)
    ensures x !in w.history.lost
  {
    hide Pending;
  }

  lemma SameHold(w: World, v: World, id: Id)
    requires v.db == w.db && v.interrupts == w.interrupts && v.history.lost == w.history.lost && KillHeld(w, id)
    ensures KillHeld(v, id)
  {
  }

  lemma OwnerHolds(w: World, x: Id, report: Report, id: Id)
    requires !Attended(w, x) && x !in w.history.lost && KillHeld(w, id) && id in w.db.tasks
    ensures var v := DoRecover(w, x, report); KillHeld(v, id) && v.history == w.history
  {
  }

  /** The action about to be persisted is not behind the persisted stage. */
  lemma PersistedRank(w: World, x: Id)
    requires TaskOk(w, x) && x in w.interrupts && w.interrupts[x].Upcoming? && IsActive(w.db, x)
    ensures ActionsBegun(w.db.tasks[x].stage) <= w.interrupts[x].index + 1
  {
  }

  lemma GoneStays(w: World, s: Step, id: Id)
    requires Inv(w) && Enabled(w, s) && id in w.history.used && id !in w.db.tasks
    ensures id in Do(w, s).history.used && id !in Do(w, s).db.tasks
  {
    hide DbOk, Tick, Active, RecoveryOk, CapacityOk, TaskOk;
    if s.Schedule? {
      TickKeeps(w.db, w.limit, w.cursor);
    }
  }

  /** An identifier that has been used and is gone does not come back. */
  lemma {:induction false} GoneIsGone(ws: seq<World>, ss: seq<Step>, i: nat, j: nat, id: Id)
    requires IsRun(ws, ss) && i <= j < |ws| && id in ws[i].history.used && id !in ws[i].db.tasks
    ensures id in ws[j].history.used && id !in ws[j].db.tasks
    decreases j - i
  {
    hide Inv, Enabled, Do;
    if i < j {
      RunKeeps(ws, ss, i);
      GoneStays(ws[i], ss[i], id);
      GoneIsGone(ws, ss, i + 1, j, id);
    }
  }

  lemma InvDb(w: World)
    requires Inv(w)
    ensures DbOk(w.db) && w.db.tasks.Keys <= w.history.used
  {
  }

  /** Over any stretch of a run the rank of a task never decreases, and a terminal row never changes. */
  lemma {:induction false} LifeIsForward(ws: seq<World>, ss: seq<Step>, i: nat, j: nat, id: Id)
    requires IsRun(ws, ss) && i <= j < |ws| && id in ws[i].db.tasks && id in ws[j].db.tasks
    ensures Forward(ws[i].db.tasks[id], ws[j].db.tasks[id])
    decreases j - i
  {
    hide Inv, Enabled, Do;
    if i < j {
      RunKeeps(ws, ss, i);
      StillThere(ws, ss, i, j, id);
      StepForward(ws[i], ss[i], id);
      LifeIsForward(ws, ss, i + 1, j, id);
    }
  }

  lemma UsedStays(w: World, s: Step)
    requires Enabled(w, s)
    ensures w.history.used <= Do(w, s).history.used
  {
    hide Tick, Active;
  }

  // ---------------------------------------------------------------- stop escalation

  /** Between any two moments of the stretch at which the task exists, the later stage is not below the earlier. */
  ghost predicate Climbs(ws: seq<World>, i: nat, j: nat, id: Id)
    requires j < |ws|
  {
    forall a, b :: i <= a <= b <= j && id in ws[a].db.tasks && id in ws[b].db.tasks ==>
      NotAbove(ws[a].db.tasks[id].stage, ws[b].db.tasks[id].stage)
  }

  /** Over any stretch of any run, crashes and restarts included, the persisted stage climbs, none,
      requested, stop:0, stop:1, ..., sigkill, if and only if no step of the stretch persists an action of
      the task while it is being forced. */
  lemma ClimbsExactlyWhen(ws: seq<World>, ss: seq<Step>, i: nat, j: nat, id: Id)
    requires IsRun(ws, ss) && i <= j < |ws|
    ensures Climbs(ws, i, j, id) <==> forall k :: i <= k < j ==> !Falls(ws[k], ss[k], id)
  {
    hide Inv, Enabled, Do, Falls, NotAbove;
    forall k | i <= k < j && Falls(ws[k], ss[k], id) ensures !Climbs(ws, i, j, id) {
      FallIsSeen(ws, ss, k, id);
    }
    if forall k :: i <= k < j ==> !Falls(ws[k], ss[k], id) {
      forall a, b | i <= a <= b <= j && id in ws[a].db.tasks && id in ws[b].db.tasks
        ensures NotAbove(ws[a].db.tasks[id].stage, ws[b].db.tasks[id].stage)
      {
        NoFallNoDrop(ws, ss, a, b, id);
      }
    }
  }

  lemma FallIsSeen(ws: seq<World>, ss: seq<Step>, k: nat, id: Id)
    requires IsRun(ws, ss) && k < |ss| && Falls(ws[k], ss[k], id)
    ensures id in ws[k].db.tasks && id in ws[k + 1].db.tasks
    ensures !NotAbove(ws[k].db.tasks[id].stage, ws[k + 1].db.tasks[id].stage)
  {
    hide Inv, Enabled, Do, NotAbove;
    RunKeeps(ws, ss, k);
    StepFallsExactlyWhen(ws[k], ss[k], id);
  }

  lemma {:induction false} NoFallNoDrop(ws: seq<World>, ss: seq<Step>, a: nat, b: nat, id: Id)
    requires IsRun(ws, ss) && a <= b < |ws| && id in ws[a].db.tasks && id in ws[b].db.tasks
    requires forall k :: a <= k < b ==> !Falls(ws[k], ss[k], id)
    ensures NotAbove(ws[a].db.tasks[id].stage, ws[b].db.tasks[id].stage)
    decreases b - a
  {
    hide Inv, Enabled, Do, Falls, NotAbove;
    if a == b {
      SameIsNotAbove(ws[a].db.tasks[id].stage);
    } else {
      RunKeeps(ws, ss, a);
      StillThere(ws, ss, a, b, id);
      StepFallsExactlyWhen(ws[a], ss[a], id);
      NoFallNoDrop(ws, ss, a + 1, b, id);
      NotAboveTwice(ws[a].db.tasks[id].stage, ws[a + 1].db.tasks[id].stage, ws[b].db.tasks[id].stage);
    }
  }

  /** A task that exists now and later exists at the next moment too. */
  lemma StillThere(ws: seq<World>, ss: seq<Step>, i: nat, j: nat, id: Id)
    requires IsRun(ws, ss) && i < j < |ws| && id in ws[i].db.tasks && id in ws[j].db.tasks
    ensures id in ws[i + 1].db.tasks
  {
    hide Inv, Enabled, Do;
    RunKeeps(ws, ss, i);
    InvDb(ws[i]);
    if id !in ws[i + 1].db.tasks {
      UsedStays(ws[i], ss[i]);
      GoneIsGone(ws, ss, i + 1, j, id);
    }
  }

  /** A fall needs a crash: over any stretch that starts while a forced stop of the task, if it has come to
      that, is being confirmed, the stage climbs as long as no crash falls into the middle of a forced stop. */
  lemma {:induction false} StageOnlyClimbs(ws: seq<World>, ss: seq<Step>, i: nat, j: nat, id: Id)
    requires IsRun(ws, ss) && i <= j < |ws| && id in ws[i].db.tasks && id in ws[j].db.tasks
    requires KillHeld(ws[i], id)
    requires forall k :: i <= k < j && ss[k].Crash? ==> !IsForced(ws[k], id)
    ensures NotAbove(ws[i].db.tasks[id].stage, ws[j].db.tasks[id].stage) && KillHeld(ws[j], id)
    decreases j - i
  {
    hide Inv, Enabled, Do, KillHeld, IsForced, NotAbove, Falls;
    if i == j {
      SameIsNotAbove(ws[i].db.tasks[id].stage);
    } else {
      RunKeeps(ws, ss, i);
      StillThere(ws, ss, i, j, id);
      StepClimbs(ws[i], ss[i], id);
      StageOnlyClimbs(ws, ss, i + 1, j, id);
      NotAboveTwice(ws[i].db.tasks[id].stage, ws[i + 1].db.tasks[id].stage, ws[j].db.tasks[id].stage);
    }
  }

  /** A sequence that begins while its task is being forced starts over, and its first persisted action
      lowers the stage. */
  lemma ForcedStopStartsOver(ws: seq<World>, ss: seq<Step>, i: nat, id: Id)
    requires IsRun(ws, ss) && i + 1 < |ss| && ss[i] == SequenceBegins(id) && ss[i + 1] == SequencePersists(id)
    requires IsForced(ws[i], id)
    ensures IsActive(ws[i + 2].db, id) && ws[i + 2].db.tasks[id].stage == Some(StopAt(0))
    ensures !NotAbove(ws[i].db.tasks[id].stage, ws[i + 2].db.tasks[id].stage)
  {
    assert Enabled(ws[i], ss[i]) && ws[i + 1] == Do(ws[i], ss[i]);
    assert Enabled(ws[i + 1], ss[i + 1]) && ws[i + 1 + 1] == Do(ws[i + 1], ss[i + 1]);
  }

  /** The sequence sends SIGKILL to a live task only after every action of the task's snapshotted
      list has been applied, in this life of the controller or an earlier one. */
  lemma KillIsLastResort(ws: seq<World>, ss: seq<Step>, i: nat, id: Id)
    requires IsRun(ws, ss) && i < |ss| && ss[i] == SequenceKills(id) && IsActive(ws[i].db, id)
    ensures var t := ws[i].db.tasks[id];
            && t.stop.Some? && ws[i].interrupts[id].actions == t.stop.value
            && forall k: nat :: k < |t.stop.value| ==> k in AttemptedBy(ws[i].history, id)
  {
    hide Do, DbOk;
    RunKeeps(ws, ss, i);
    assert TaskOk(ws[i], id);
  }

  /** A stop that a restart finds at action `k` resumes at action `k` of the same list, and every
      action before `k` has been applied. */
  lemma RestartResumes(ws: seq<World>, ss: seq<Step>, i: nat, id: Id, k: nat)
    requires IsRun(ws, ss) && i < |ss| && ss[i] == SequenceBegins(id) && id in ws[i].db.tasks
    requires ws[i].db.tasks[id].stage == Some(StopAt(k))
    ensures var t := ws[i].db.tasks[id];
            && t.stop.Some? && k < |t.stop.value|
            && ws[i + 1].interrupts[id] == Upcoming(t.stop.value, k)
            && forall n: nat :: n < k ==> n in AttemptedBy(ws[i].history, id)
  {
    RunKeeps(ws, ss, i);
    assert TaskOk(ws[i], id);
    RowsAre(ws[i].db, id);
  }

  // ---------------------------------------------------------------- recovery

  /** Recovery ends only when it has visited each task that was active at its start exactly once
      and in order; each of them is then terminal (or its record gone) or has a waiter. */
  lemma RecoveryCoversEveryone(ws: seq<World>, ss: seq<Step>, i: nat)
    requires IsRun(ws, ss) && i < |ss| && ss[i] == RecoveryEnds
    ensures ws[i].history.visited == Sorted(ws[i].history.targets)
    ensures forall id :: id in ws[i].history.targets ==> IsOver(ws[i].db, id) || id in ws[i].waiters
    ensures Active(ws[i].db) <= ws[i].history.targets
  {
    hide Do, DbOk, Sorted;
    RunKeeps(ws, ss, i);
    var w := ws[i];
    assert w.history.visited + [] == w.history.visited;
    assert Pending(w) == [];
    forall id | id in w.history.targets ensures IsOver(w.db, id) || id in w.waiters {
      assert TaskOk(w, id);
      RecoveredIsStarted(w, id);
    }
  }

  /** Unless the host rebooted, recovery closes no task that the executor says is running, whatever
      exit code it also finds: the row stays as it is, still active, and gets a waiter, and a new stop
      sequence if it was being stopped.  Every other task is closed. */
  lemma LiveOwnersAreKept(ws: seq<World>, ss: seq<Step>, i: nat, completed: Option<int>, running: bool)
    requires IsRun(ws, ss) && i < |ss| && ss[i] == RecoverNext(completed, running)
    ensures var w, v, id := ws[i], ws[i + 1], ws[i].mode.page[0];
            && IsActive(w.db, id)
            && (IsActive(v.db, id) <==> running && !w.mode.rebooted)
            && (running && !w.mode.rebooted ==>
                 && v.db == w.db && id in v.waiters && v.waiters[id] == Waiting
                 && (w.db.tasks[id].stage.Some? ==> id in v.interrupts && v.interrupts[id] == Fresh))
  {
    hide DbOk, CapacityOk, TaskOk, Active, Sorted, Pending;
    RunKeeps(ws, ss, i);
    NextIsPending(ws[i], ws[i + 1]);
  }

  lemma RecoveredIsStarted(w: World, id: Id)
    requires Inv(w) && w.mode.Recovering? && id in w.history.targets
    ensures IsOver(w.db, id) || IsActive(w.db, id)
  {
    hide Sorted, DbOk, CapacityOk, TaskOk, Pending;
  }
}
