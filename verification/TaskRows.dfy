/** What each thing that can happen to a task makes of its row, and for how long: service.py `interrupt`,
    `_start`, `_wait`, `_interrupt_sequence` and `recover`. */
module TaskRows {
  import opened Wrappers
  import opened TaskOrder
  import opened TaskModel
  import opened Scheduler
  import opened Lifecycle
  import opened LifecycleSafety
  import opened LifecycleSteps
  import opened LifecycleRuns

  /** The row of `id` becomes `t`, and no other row changes. */
  ghost predicate BecomesRow(w: World, v: World, id: Id, t: Task) {
    v.db.tasks == w.db.tasks[id := t]
  }

  predicate IsLive(w: World, id: Id) {
    id in w.db.tasks && w.db.tasks[id].state !in TERMINAL
  }

  // ---------------------------------------------------------------- a stop is asked for

  /** A queued task is cancelled at once; a starting or running one that is not being stopped gets the
      stage `requested`, a list of actions, its own if it has one, and a stop sequence; any other task is
      left alone. */
  lemma InterruptMeans(w: World, id: Id)
    requires Enabled(w, Interrupt(id))
    ensures var v, t := Do(w, Interrupt(id)), w.db.tasks[id];
            && v.starters == w.starters && v.waiters == w.waiters && v.cursor == w.cursor && v.history == w.history
            && (t.state == QUEUED ==>
                  && BecomesRow(w, v, id, t.(state := CANCELLED, stage := Some(QueuedStage), ended := true))
                  && v.interrupts == w.interrupts)
            && (t.state in {STARTING, RUNNING} && id !in w.interrupts ==>
                  && BecomesRow(w, v, id, t.(state := STOPPING, stage := Some(Requested),
                       stop := if t.stop.Some? then t.stop else Some([Signal("SIGINT"), Signal("SIGTERM")])))
                  && v.interrupts == w.interrupts[id := Fresh])
            && (t.state !in {QUEUED, STARTING, RUNNING} || (t.state != QUEUED && id in w.interrupts) ==> v == w)
  {
  }

  /** Nothing comes to an ended or deleted task that nothing looks after. */
  lemma StaysIdle(w: World, s: Step, id: Id)
    requires Inv(w) && Enabled(w, s) && id in w.history.used && !IsLive(w, id) && !Attended(w, id)
    ensures !IsLive(Do(w, s), id) && !Attended(Do(w, s), id) && id in Do(w, s).history.used
    ensures id in Do(w, s).db.tasks ==> id in w.db.tasks && Do(w, s).db.tasks[id] == w.db.tasks[id]
  {
    hide Inv, Do, Enabled, Attended, Forward;
    UsedStays(w, s);
    if id in w.db.tasks {
      StepForward(w, s, id);
      TerminalStays(w, s, id);
    } else {
      GoneStays(w, s, id);
    }
    StaysUnattended(w, s, id);
  }

  lemma TerminalStays(w: World, s: Step, id: Id)
    requires Enabled(w, s) && id in w.db.tasks && w.db.tasks[id].state in TERMINAL
    requires id in Do(w, s).db.tasks ==> Forward(w.db.tasks[id], Do(w, s).db.tasks[id])
    ensures id in Do(w, s).db.tasks ==> Do(w, s).db.tasks[id] == w.db.tasks[id]
  {
    hide Do, Enabled;
  }

  lemma StaysUnattended(w: World, s: Step, id: Id)
    requires Inv(w) && Enabled(w, s) && id in w.history.used && !IsLive(w, id) && !Attended(w, id)
    ensures !Attended(Do(w, s), id)
  {
    hide DbOk, CapacityOk, TaskOk, Tick, Active, WithoutEvents, Inv, RecoveryOk, Pending, Moved, WithStop;
    InvDb(w);
    if s.Schedule? {
      TickKeeps(w.db, w.limit, w.cursor);
      var started := Tick(w.db, w.limit, w.cursor).started;
      assert id !in started;
    } else if s.RecoverNext? {
      assert RecoveryOk(w) by { InvParts(w); }
      NextIsPending(w, Do(w, s));
    }
  }

  /** A task cancelled while it was queued stays as it was then, and is never started. */
  lemma {:induction false} CancelledIsNeverStarted(ws: seq<World>, ss: seq<Step>, i: nat, j: nat, id: Id)
    requires IsRun(ws, ss) && i < j < |ws| && ss[i] == Interrupt(id) && ws[i].db.tasks[id].state == QUEUED
    ensures id in ws[j].db.tasks ==>
              ws[j].db.tasks[id] == ws[i].db.tasks[id].(state := CANCELLED, stage := Some(QueuedStage), ended := true)
    ensures !IsLive(ws[j], id) && !Attended(ws[j], id) && id in ws[j].history.used
    ensures j < |ss| && ss[j].Schedule? ==> id !in Tick(ws[j].db, ws[j].limit, ws[j].cursor).started
    decreases j
  {
    hide Inv, Enabled, Do, Attended, Tick;
    if j == i + 1 {
      RunKeeps(ws, ss, i);
      InvDb(ws[i]);
      InterruptIsOfRow(ws[i], id);
      QueuedIsUnattended(ws[i], id);
      InterruptedOnce(ws[i], id);
    } else {
      CancelledIsNeverStarted(ws, ss, i, j - 1, id);
      RunKeeps(ws, ss, j - 1);
      StaysIdle(ws[j - 1], ss[j - 1], id);
    }
    if j < |ss| && ss[j].Schedule? {
      RunKeeps(ws, ss, j);
      InvDb(ws[j]);
      TickKeeps(ws[j].db, ws[j].limit, ws[j].cursor);
    }
  }

  lemma InterruptIsOfRow(w: World, id: Id)
    requires Enabled(w, Interrupt(id))
    ensures id in w.db.tasks
  {
  }

  lemma InterruptedOnce(w: World, id: Id)
    requires Enabled(w, Interrupt(id)) && w.db.tasks[id].state == QUEUED && !Attended(w, id)
    ensures var v := Do(w, Interrupt(id));
            BecomesRow(w, v, id, w.db.tasks[id].(state := CANCELLED, stage := Some(QueuedStage), ended := true))
            && !Attended(v, id) && v.history == w.history
  {
  }

  lemma QueuedIsUnattended(w: World, id: Id)
    requires Inv(w) && id in w.db.tasks && w.db.tasks[id].state == QUEUED
    ensures !Attended(w, id)
  {
    hide DbOk, RecoveryOk, CapacityOk, Inv, Pending;
    assert TaskOk(w, id) by { InvParts(w); }
  }

  // ---------------------------------------------------------------- a process ends

  /** The outcome of a process: a recorded interrupt makes it cancelled, whatever its exit code. */
  predicate IsOutcome(state: State, stage: Option<Stage>, code: int) {
    && (state == CANCELLED <==> stage.Some?)
    && (state == SUCCEEDED <==> stage.None? && code == 0)
    && (state == FAILED <==> stage.None? && code != 0)
  }

  lemma ReturnDecides(w: World, id: Id, code: int)
    requires Enabled(w, WaitReturns(id, code))
    ensures var v := Do(w, WaitReturns(id, code));
            && v.db == w.db && v.starters == w.starters && v.interrupts == w.interrupts
            && (!IsLive(w, id) ==> v.waiters == Drop(w.waiters, id))
            && (IsLive(w, id) ==>
                  && id in v.waiters && v.waiters == w.waiters[id := v.waiters[id]]
                  && v.waiters[id].Deciding? && v.waiters[id].code == code
                  && IsOutcome(v.waiters[id].state, w.db.tasks[id].stage, code))
  {
  }

  /** The commit stores what was decided, unless the task has ended meanwhile. */
  lemma CommitStores(w: World, id: Id)
    requires Enabled(w, WaitCommits(id))
    ensures var v, d := Do(w, WaitCommits(id)), w.waiters[id];
            && v.waiters == Drop(w.waiters, id) && v.starters == w.starters && v.interrupts == w.interrupts
            && if IsActive(w.db, id)
               then BecomesRow(w, v, id, w.db.tasks[id].(state := d.state, exitCode := Some(d.code), ended := true))
               else v.db == w.db
  {
  }

  /** No task is waited for while its start is under way. */
  ghost predicate StartsOrWaits(w: World) {
    w.starters !! w.waiters.Keys
  }

  lemma StepStartsOrWaits(w: World, s: Step)
    requires Inv(w) && Enabled(w, s) && StartsOrWaits(w)
    ensures StartsOrWaits(Do(w, s))
  {
    hide DbOk, CapacityOk, TaskOk, Tick, Active, WithoutEvents, Inv, RecoveryOk, Pending, Moved, WithStop;
    InvDb(w);
    if s.Schedule? {
      TickKeeps(w.db, w.limit, w.cursor);
      var started := Tick(w.db, w.limit, w.cursor).started;
      forall id | id in Elements(started) ensures id !in w.waiters {
        assert id in started;
        QueuedIsUnattended(w, id);
      }
    } else if s.RecoverNext? {
      assert RecoveryOk(w) by { InvParts(w); }
      NoStarters(w);
    }
  }

  lemma NoStarters(w: World)
    requires w.mode.Recovering? && RecoveryOk(w)
    ensures w.starters == {}
  {
  }

  lemma {:induction false} RunStartsOrWaits(ws: seq<World>, ss: seq<Step>, i: nat)
    requires IsRun(ws, ss) && i < |ws|
    ensures StartsOrWaits(ws[i])
    decreases i
  {
    hide Inv, Enabled, Do;
    if i > 0 {
      RunKeeps(ws, ss, i - 1);
      RunStartsOrWaits(ws, ss, i - 1);
      StepStartsOrWaits(ws[i - 1], ss[i - 1]);
    }
  }

  /** What was decided about a task stays so until it is committed, or the controller crashes. */
  lemma DecisionWaits(w: World, s: Step, id: Id)
    requires Inv(w) && Enabled(w, s) && StartsOrWaits(w) && id in w.waiters && w.waiters[id].Deciding?
    requires !s.Crash? && s != WaitCommits(id)
    ensures id in Do(w, s).waiters && Do(w, s).waiters[id] == w.waiters[id]
  {
    hide DbOk, CapacityOk, TaskOk, Tick, Active, WithoutEvents, Inv, RecoveryOk, Pending, Moved, WithStop;
    if s.RecoverNext? {
      assert RecoveryOk(w) by { InvParts(w); }
      NextIsPending(w, Do(w, s));
    }
  }

  lemma {:induction false} DecisionStands(ws: seq<World>, ss: seq<Step>, i: nat, j: nat, id: Id)
    requires IsRun(ws, ss) && i <= j < |ws| && id in ws[i].waiters && ws[i].waiters[id].Deciding?
    requires forall k :: i <= k < j ==> !ss[k].Crash? && ss[k] != WaitCommits(id)
    ensures id in ws[j].waiters && ws[j].waiters[id] == ws[i].waiters[id]
    decreases j
  {
    hide Inv, Enabled, Do, StartsOrWaits;
    if i < j {
      DecisionStands(ws, ss, i, j - 1, id);
      RunKeeps(ws, ss, j - 1);
      RunStartsOrWaits(ws, ss, j - 1);
      DecisionWaits(ws[j - 1], ss[j - 1], id);
    }
  }

  /** In every run, a process that returns `code` while its row is live ends its task, if that is still
      active by then, in the state that the stage at the return and the code determine: cancelled if and
      only if an interrupt was recorded by then, else succeeded if and only if the code is 0. */
  lemma OutcomeIsThatOfTheReturn(ws: seq<World>, ss: seq<Step>, i: nat, j: nat, id: Id, code: int)
    requires IsRun(ws, ss) && i < j < |ss| && ss[i] == WaitReturns(id, code) && ss[j] == WaitCommits(id)
    requires IsLive(ws[i], id) && forall k :: i < k < j ==> !ss[k].Crash? && ss[k] != WaitCommits(id)
    ensures if IsActive(ws[j].db, id)
            then id in ws[j + 1].db.tasks && var u := ws[j + 1].db.tasks[id];
                 && IsOutcome(u.state, ws[i].db.tasks[id].stage, code)
                 && BecomesRow(ws[j], ws[j + 1], id,
                      ws[j].db.tasks[id].(state := u.state, exitCode := Some(code), ended := true))
            else ws[j + 1].db == ws[j].db
  {
    hide Inv, Do, Enabled, IsOutcome;
    assert Enabled(ws[i], ss[i]) && ws[i + 1] == Do(ws[i], ss[i]);
    ReturnDecides(ws[i], id, code);
    DecisionStands(ws, ss, i + 1, j, id);
    assert Enabled(ws[j], ss[j]) && ws[j + 1] == Do(ws[j], ss[j]);
    CommitStores(ws[j], id);
  }

  // ---------------------------------------------------------------- recovery

  /** What recovery makes of the next task: after a reboot it is lost; if it has ended with a code it gets
      the outcome of that code; if it runs it is left as it is, with a waiter, and with a stop sequence if
      a stop was recorded; and if nothing is known of it, it is lost, or cancelled with code 137 if it was
      being forced. */
  lemma RecoverMeans(ws: seq<World>, ss: seq<Step>, i: nat, completed: Option<int>, running: bool)
    requires IsRun(ws, ss) && i < |ss| && ss[i] == RecoverNext(completed, running)
    ensures var w, v, id := ws[i], ws[i + 1], ws[i].mode.page[0];
            && IsActive(w.db, id) && id in v.db.tasks && v.starters == w.starters
            && var t, u := w.db.tasks[id], v.db.tasks[id];
            && BecomesRow(w, v, id, u)
            && (w.mode.rebooted ==> u == t.(state := LOST, ended := true))
            && (!w.mode.rebooted && completed.Some? && !running ==>
                  && IsOutcome(u.state, t.stage, completed.value)
                  && u == t.(state := u.state, exitCode := completed, ended := true))
            && (!w.mode.rebooted && running ==>
                  && u == t && v.waiters == w.waiters[id := Waiting]
                  && v.interrupts == if t.stage.Some? then w.interrupts[id := Fresh] else w.interrupts)
            && (!w.mode.rebooted && completed.None? && !running ==>
                  u == if t.stage == Some(Sigkill) then t.(state := CANCELLED, exitCode := Some(137), ended := true)
                       else t.(state := LOST, ended := true))
            && (w.mode.rebooted || !running ==> v.waiters == w.waiters && v.interrupts == w.interrupts)
  {
    hide DbOk, CapacityOk, TaskOk, Inv, Active, Sorted, Pending, RecoveryOk;
    RunKeeps(ws, ss, i);
    assert RecoveryOk(ws[i]) by { InvParts(ws[i]); }
    NextIsPending(ws[i], ws[i + 1]);
  }

  // ---------------------------------------------------------------- starts and stops

  /** A start that succeeds makes a starting task run, one that fails ends it with code 127; a task that was
      stopped meanwhile keeps its row.  Only the former is waited for. */
  lemma StartMeans(w: World, id: Id, launched: bool)
    requires id in w.starters
    ensures var v := Do(w, if launched then StartSucceeds(id) else StartFails(id));
            && v.starters == w.starters - {id} && v.interrupts == w.interrupts
            && v.waiters == (if launched then w.waiters[id := Waiting] else w.waiters)
            && if CanTransition(w.db, id, {STARTING})
               then BecomesRow(w, v, id, if launched then w.db.tasks[id].(state := RUNNING)
                                         else w.db.tasks[id].(state := FAILED, exitCode := Some(127), ended := true))
               else v.db == w.db
  {
  }

  /** A task whose process is neither running nor known to have ended is lost. */
  lemma NothingFoundMeans(w: World, id: Id)
    requires Enabled(w, WaitFindsNothing(id))
    ensures var v := Do(w, WaitFindsNothing(id));
            && v.waiters == Drop(w.waiters, id) && v.starters == w.starters && v.interrupts == w.interrupts
            && if IsActive(w.db, id) then BecomesRow(w, v, id, w.db.tasks[id].(state := LOST, ended := true))
               else v.db == w.db
  {
  }

  /** A sequence runs through the stored actions, from the one that the persisted stage names, or from the
      first. */
  lemma SequenceBeginsMeans(w: World, id: Id)
    requires Enabled(w, SequenceBegins(id)) && id in w.db.tasks
    ensures var v, t := Do(w, SequenceBegins(id)), w.db.tasks[id];
            && v.db == w.db && v.waiters == w.waiters && v.starters == w.starters
            && id in v.interrupts && v.interrupts == w.interrupts[id := v.interrupts[id]] && v.interrupts[id].Upcoming?
            && v.interrupts[id].actions
              == (if t.stop.Some? then t.stop.value else [Signal("SIGINT"), Signal("SIGTERM")])
            && match t.stage
               case Some(StopAt(k)) => v.interrupts[id].index == k
               case _ => v.interrupts[id].index == 0
  {
  }

  /** Each turn of a sequence persists the next action before it is applied, and behind the last one the
      forced kill; it ends when the task has. */
  lemma SequenceTurnMeans(w: World, s: Step, id: Id)
    requires Inv(w) && Enabled(w, s) && (s == SequencePersists(id) || s == SequenceKills(id))
    ensures var v, q := Do(w, s), w.interrupts[id];
            && v.waiters == w.waiters && v.starters == w.starters
            && (s == SequencePersists(id) <==> q.index < |q.actions|)
            && if !IsLive(w, id) then v.db == w.db && v.interrupts == Drop(w.interrupts, id)
               else if q.index < |q.actions| then
                 && BecomesRow(w, v, id, w.db.tasks[id].(state := STOPPING, stage := Some(StopAt(q.index))))
                 && v.interrupts == w.interrupts[id := Applying(q.actions, q.index)]
               else
                 && BecomesRow(w, v, id, w.db.tasks[id].(state := STOPPING, stage := Some(Sigkill)))
                 && v.interrupts == w.interrupts[id := Killing]
  {
    hide DbOk, RecoveryOk, CapacityOk, Inv, Pending, TaskOk;
    assert TaskOk(w, id) by { InvParts(w); }
    KillingIsActive(w, id);
  }

  /** An action that has been applied is recorded, and the turn passes to the next. */
  lemma SequenceAppliesMeans(w: World, id: Id)
    requires Enabled(w, SequenceApplies(id))
    ensures var v, q := Do(w, SequenceApplies(id)), w.interrupts[id];
            && v.db == w.db && v.waiters == w.waiters && v.starters == w.starters
            && v.interrupts == w.interrupts[id := Upcoming(q.actions, q.index + 1)]
            && AttemptedBy(v.history, id) == AttemptedBy(w.history, id) + {q.index}
  {
  }

  /** A confirmed exit of a forced task ends it as cancelled, with the code found; a task that has ended
      meanwhile keeps its row. */
  lemma ExitMeans(w: World, id: Id, code: int)
    requires Inv(w) && Enabled(w, ExitConfirmed(id, code))
    ensures var v := Do(w, ExitConfirmed(id, code));
            && v.interrupts == Drop(w.interrupts, id) && v.waiters == w.waiters && v.starters == w.starters
            && if IsLive(w, id)
               then BecomesRow(w, v, id, w.db.tasks[id].(state := CANCELLED, exitCode := Some(code), ended := true))
               else v.db == w.db
  {
    hide DbOk, RecoveryOk, CapacityOk, Inv, Pending, TaskOk;
    assert TaskOk(w, id) by { InvParts(w); }
    KillingIsActive(w, id);
  }

  /** A shutdown that has waited long enough forces a stopping task, and confirms its exit itself. */
  lemma ShutdownMeans(w: World, id: Id)
    requires Enabled(w, ShutdownKills(id))
    ensures var v := Do(w, ShutdownKills(id));
            && BecomesRow(w, v, id, w.db.tasks[id].(stage := Some(Sigkill)))
            && v.interrupts == w.interrupts[id := Killing] && v.waiters == w.waiters && v.starters == w.starters
  {
  }

  /** A tick starts queued tasks: their rows say so, each has a starter, and no other row changes. */
  lemma TickMeans(w: World, id: Id)
    requires Inv(w) && Enabled(w, Schedule) && id in w.db.tasks
    ensures var v := Do(w, Schedule);
            && v.waiters == w.waiters && v.interrupts == w.interrupts && v.db.tasks.Keys == w.db.tasks.Keys
            && var t, u := w.db.tasks[id], v.db.tasks[id];
            if u == t then id in v.starters <==> id in w.starters
            else t.state == QUEUED && u == t.(state := STARTING, started := true) && id in v.starters
  {
    hide DbOk, CapacityOk, TaskOk, Inv, RecoveryOk, Tick, Active;
    InvDb(w);
    TickKeeps(w.db, w.limit, w.cursor);
    var started := Tick(w.db, w.limit, w.cursor).started;
    assert id in Elements(started) <==> id in started;
  }

  // ---------------------------------------------------------------- all endings

  /** The step ends the task `id`. */
  predicate Ends(w: World, s: Step, id: Id)
    requires id in w.db.tasks
  {
    match s
    case Interrupt(x) => x == id && w.db.tasks[id].state == QUEUED
    case StartFails(x) => x == id && w.db.tasks[id].state == STARTING
    case WaitCommits(x) => x == id
    case WaitFindsNothing(x) => x == id
    case ExitConfirmed(x, _) => x == id
    case RecoverNext(_, running) =>
      w.mode.Recovering? && w.mode.page != [] && w.mode.page[0] == id && (w.mode.rebooted || !running)
    case _ => false
  }

  /** A live task ends in exactly these ways; nothing else ends or removes it. */
  lemma EndsExactlyWhen(w: World, s: Step, id: Id)
    requires Inv(w) && Enabled(w, s) && IsLive(w, id)
    ensures id in Do(w, s).db.tasks && (!IsLive(Do(w, s), id) <==> Ends(w, s, id))
  {
    hide DbOk, TaskOk, Inv, RecoveryOk, Do, Enabled, Ends, IsLive;
    InvDb(w);
    if IsOfSequence(s) {
      assert TaskOk(w, s.id) by { InvParts(w); }
      SequenceEnds(w, s, id);
    } else if s.RecoverNext? {
      assert RecoveryOk(w) by { NextIsRecovery(w, s.completed, s.running); InvParts(w); }
      RecoveryEndsIt(w, s.completed, s.running, id);
    } else if s.WaitCommits? || s.WaitFindsNothing? {
      assert TaskOk(w, s.id) by { InvParts(w); }
      WaitEnds(w, s, id);
    } else {
      OtherEnds(w, s, id);
    }
  }

  lemma NextIsRecovery(w: World, completed: Option<int>, running: bool)
    requires Enabled(w, RecoverNext(completed, running))
    ensures w.mode.Recovering? && w.mode.page != []
  {
  }

  lemma SequenceEnds(w: World, s: Step, id: Id)
    requires IsOfSequence(s) && TaskOk(w, s.id) && Enabled(w, s) && IsLive(w, id)
    ensures id in Do(w, s).db.tasks && (!IsLive(Do(w, s), id) <==> Ends(w, s, id))
  {
    hide TaskOk, AttemptedBy;
    if s.ExitConfirmed? {
      KillingIsActive(w, s.id);
    }
  }

  lemma WaitEnds(w: World, s: Step, id: Id)
    requires (s.WaitCommits? || s.WaitFindsNothing?) && TaskOk(w, s.id) && Enabled(w, s) && IsLive(w, id)
    ensures id in Do(w, s).db.tasks && (!IsLive(Do(w, s), id) <==> Ends(w, s, id))
  {
    hide TaskOk;
    WaiterIsActive(w, s.id);
    if s.WaitCommits? {
      DecidedRank(w, s.id);
    }
  }

  lemma RecoveryEndsIt(w: World, completed: Option<int>, running: bool, id: Id)
    requires Enabled(w, RecoverNext(completed, running)) && w.mode.Recovering? && RecoveryOk(w) && IsLive(w, id)
    ensures var v := Do(w, RecoverNext(completed, running));
            id in v.db.tasks && (!IsLive(v, id) <==> Ends(w, RecoverNext(completed, running), id))
  {
    hide RecoveryOk, DoRecover, Active, Pending;
    NextIsPending(w, Do(w, RecoverNext(completed, running)));
    RecoverEnds(w, w.mode.page[0], ReportOf(w.mode.rebooted, completed, running), id);
  }

  lemma OtherEnds(w: World, s: Step, id: Id)
    requires DbOk(w.db) && w.db.tasks.Keys <= w.history.used && Enabled(w, s) && IsLive(w, id) && !IsOfSequence(s)
    requires !s.RecoverNext? && !s.WaitCommits? && !s.WaitFindsNothing?
    ensures id in Do(w, s).db.tasks && (!IsLive(Do(w, s), id) <==> Ends(w, s, id))
  {
    hide DbOk, Tick, Active, WithoutEvents;
    if s.Schedule? {
      TickKeeps(w.db, w.limit, w.cursor);
    }
  }

  lemma WaiterIsActive(w: World, x: Id)
    requires TaskOk(w, x) && x in w.waiters
    ensures IsLive(w, x) ==> IsActive(w.db, x)
  {
  }

  lemma KillingIsActive(w: World, x: Id)
    requires TaskOk(w, x) && x in w.interrupts
    ensures IsLive(w, x) ==> w.db.tasks[x].state == STOPPING
  {
  }

  lemma RecoverEnds(w: World, x: Id, report: Report, id: Id)
    requires IsActive(w.db, x) && id in w.db.tasks
    ensures var v := DoRecover(w, x, report);
            id in v.db.tasks && (id != x ==> v.db.tasks[id] == w.db.tasks[id])
            && (v.db.tasks[x].state in TERMINAL <==> !report.Alive?)
  {
  }
}
