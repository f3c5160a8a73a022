/** The life of tasks under service.py, as a state machine.

    One step is the code between two awaits of one coroutine.  The environment decides which
    coroutine runs next, when a process exits and with which code, and when the controller
    crashes and restarts; a crash keeps the tables and loses everything else. */
module Lifecycle {
  import opened Wrappers
  import opened TaskOrder
  import opened TaskModel
  import opened Scheduler

  // ---------------------------------------------------------------- states

  /** `_wait`: waiting for the executor, or evaluating a result with the outcome already chosen. */
  datatype Waiter = Waiting | Deciding(state: State, code: int)

  /** `_interrupt_sequence`: created, about to persist an action, applying it, or confirming a forced exit. */
  datatype Sequence =
    | Fresh
    | Upcoming(actions: seq<StopAction>, index: nat)
    | Applying(actions: seq<StopAction>, index: nat)
    | Killing

  /** What recovery makes of a task, from its own knowledge and the executor's two answers. */
  datatype Report = Rebooted | Finished(code: int) | Alive | Gone

  /** Recovery holds a page of rows and the cursor behind it; `more` if another page may follow. */
  datatype Mode = Serving | Recovering(rebooted: bool, cursor: Option<Id>, page: seq<Id>, more: bool)

  /** Facts about the past that no code reads. */
  datatype History = History(
    used: set<Id>,                  // identifiers ever given to a task
    attempted: map<Id, set<nat>>,   // stop actions ever applied
    peak: nat,                      // active tasks when the controller last started
    targets: set<Id>,               // active tasks when the current recovery started
    visited: seq<Id>,               // tasks that recovery has handled
    lost: set<Id>)                  // tasks that lost a stop sequence since the controller last started

  datatype World = World(
    db: Db,
    limit: Option<nat>,
    cursor: Option<Id>,
    starters: set<Id>,
    waiters: map<Id, Waiter>,
    interrupts: map<Id, Sequence>,
    mode: Mode,
    history: History)

  datatype Step =
    | Submit(id: Id, keys: set<string>, stop: Option<seq<StopAction>>)
    | Schedule
    | StartSucceeds(id: Id)
    | StartFails(id: Id)
    | WaitReturns(id: Id, code: int)
    | WaitCommits(id: Id)
    | WaitFindsNothing(id: Id)
    | Interrupt(id: Id)
    | SequenceBegins(id: Id)
    | SequencePersists(id: Id)
    | SequenceApplies(id: Id)
    | SequenceKills(id: Id)
    | ExitConfirmed(id: Id, code: int)
    | ShutdownKills(id: Id)
    | SequenceLost(id: Id)
    | Purge(id: Id)
    | Crash(rebooted: bool, limit: Option<nat>)
    | FetchPage
    | RecoverNext(completed: Option<int>, running: bool)
    | RecoveryEnds

  const INITIAL := World(Db(map[], []), None, None, {}, map[], map[], Serving, History({}, map[], 0, {}, [], {}))

  // ---------------------------------------------------------------- pieces of the steps

  const DEFAULT_ACTIONS := [Signal("SIGINT"), Signal("SIGTERM")]

  function Drop<K, V>(m: map<K, V>, k: K): map<K, V> {
    m - {k}
  }

  function Outcome(code: int, stage: Option<Stage>): State {
    if stage.Some? then CANCELLED else if code == 0 then SUCCEEDED else FAILED
  }

  predicate IsOver(db: Db, id: Id) {
    id !in db.tasks || db.tasks[id].state in TERMINAL
  }

  /** `_interrupted_action_index` */
  function StartIndex(stage: Option<Stage>): nat {
    if stage.Some? && stage.value.StopAt? then stage.value.index else 0
  }

  function WithoutEvents(events: seq<(Id, State)>, id: Id): seq<(Id, State)> {
    if events == [] then [] else
    var rest := WithoutEvents(events[..|events| - 1], id);
    if events[|events| - 1].0 == id then rest else rest + [events[|events| - 1]]
  }

  function AttemptedBy(h: History, id: Id): set<nat> {
    if id in h.attempted then h.attempted[id] else {}
  }

  // ---------------------------------------------------------------- steps

  /** A sequence is lost when the executor's forced kill raises, or when a shutdown, which first waits for
      the starters, has cancelled it and fails at another task before it comes to this one. */
  ghost predicate Enabled(w: World, s: Step) {
    match s
    case Submit(id, _, stop) => w.mode.Serving? && id !in w.history.used && (stop.Some? ==> stop.value != [])
    case Schedule => w.mode.Serving?
    case StartSucceeds(id) => id in w.starters
    case StartFails(id) => id in w.starters
    case WaitReturns(id, _) => id in w.waiters && w.waiters[id].Waiting?
    case WaitCommits(id) => id in w.waiters && w.waiters[id].Deciding?
    case WaitFindsNothing(id) => id in w.waiters && w.waiters[id].Waiting?
    case Interrupt(id) => w.mode.Serving? && id in w.db.tasks
    case SequenceBegins(id) => id in w.interrupts && w.interrupts[id].Fresh?
    case SequencePersists(id) =>
      id in w.interrupts && w.interrupts[id].Upcoming? && w.interrupts[id].index < |w.interrupts[id].actions|
    case SequenceApplies(id) => id in w.interrupts && w.interrupts[id].Applying?
    case SequenceKills(id) =>
      id in w.interrupts && w.interrupts[id].Upcoming? && w.interrupts[id].index >= |w.interrupts[id].actions|
    case ExitConfirmed(id, _) => id in w.interrupts && w.interrupts[id].Killing?
    case ShutdownKills(id) => w.mode.Serving? && id in w.db.tasks && w.db.tasks[id].state == STOPPING
    case SequenceLost(id) =>
      id in w.interrupts && (w.interrupts[id].Killing? || (w.mode.Serving? && w.starters == {}))
    case Purge(id) => w.mode.Serving? && id in w.db.tasks && w.db.tasks[id].state in TERMINAL
    case Crash(_, _) => true
    case FetchPage => w.mode.Recovering? && w.mode.page == [] && w.mode.more
    case RecoverNext(_, _) => w.mode.Recovering? && w.mode.page != []
    case RecoveryEnds => w.mode.Recovering? && w.mode.page == [] && !w.mode.more
  }

  function NewTask(keys: set<string>, stop: Option<seq<StopAction>>): Task {
    Task(keys, QUEUED, None, stop, None, false, false)
  }

  function DoInterrupt(w: World, id: Id): World
    requires id in w.db.tasks
  {
    var t := w.db.tasks[id];
    if t.state == QUEUED then
      w.(db := Moved(w.db, id, {QUEUED}, CANCELLED, Changes(stage := Some(QueuedStage), ended := true)))
    else if t.state in {STARTING, RUNNING} && id !in w.interrupts then
      var db := WithStop(w.db, id, DEFAULT_ACTIONS);
      w.(db := Moved(db, id, {STARTING, RUNNING}, STOPPING, Changes(stage := Some(Requested))),
         interrupts := w.interrupts[id := Fresh])
    else w
  }

  /** After a reboot of the host no owner is asked; otherwise a task is finished only if it has an
      exit code and no longer runs. */
  function ReportOf(rebooted: bool, completed: Option<int>, running: bool): Report {
    if rebooted then Rebooted
    else if completed.Some? && !running then Finished(completed.value)
    else if running then Alive
    else Gone
  }

  /** What recovery does with one active task. */
  function DoRecover(w: World, id: Id, report: Report): World {
    var stage := if id in w.db.tasks then w.db.tasks[id].stage else None;
    match report
    case Rebooted => w.(db := Moved(w.db, id, ACTIVE, LOST, Changes(ended := true)))
    case Finished(code) =>
      w.(db := Moved(w.db, id, ACTIVE, Outcome(code, stage), Changes(exitCode := Some(code), ended := true)))
    case Alive =>
      w.(waiters := w.waiters[id := Waiting],
         interrupts := if stage.Some? then w.interrupts[id := Fresh] else w.interrupts)
    case Gone =>
      if stage == Some(Sigkill)
      then w.(db := Moved(w.db, id, ACTIVE, CANCELLED, Changes(exitCode := Some(137), ended := true)))
      else w.(db := Moved(w.db, id, ACTIVE, LOST, Changes(ended := true)))
  }

  ghost function Do(w: World, s: Step): World
    requires Enabled(w, s)
  {
    match s
    case Submit(id, keys, stop) =>
      w.(db := Db(w.db.tasks[id := NewTask(keys, stop)], w.db.events + [(id, QUEUED)]),
         history := w.history.(used := w.history.used + {id}))
    case Schedule =>
      var t := Tick(w.db, w.limit, w.cursor);
      w.(db := t.db, cursor := t.cursor, starters := w.starters + Elements(t.started))
    case StartSucceeds(id) =>
      w.(db := Moved(w.db, id, {STARTING}, RUNNING, Changes()),
         starters := w.starters - {id}, waiters := w.waiters[id := Waiting])
    case StartFails(id) =>
      w.(db := Moved(w.db, id, {STARTING}, FAILED, Changes(exitCode := Some(127), ended := true)),
         starters := w.starters - {id})
    case WaitReturns(id, code) =>
      if IsOver(w.db, id) then w.(waiters := Drop(w.waiters, id))
      else w.(waiters := w.waiters[id := Deciding(Outcome(code, w.db.tasks[id].stage), code)])
    case WaitCommits(id) =>
      var d := w.waiters[id];
      w.(db := Moved(w.db, id, ACTIVE, d.state, Changes(exitCode := Some(d.code), ended := true)),
         waiters := Drop(w.waiters, id))
    case WaitFindsNothing(id) =>
      w.(db := Moved(w.db, id, ACTIVE, LOST, Changes(ended := true)), waiters := Drop(w.waiters, id))
    case Interrupt(id) => DoInterrupt(w, id)
    case SequenceBegins(id) =>
      if id !in w.db.tasks then w.(interrupts := Drop(w.interrupts, id))
      else
        var t := w.db.tasks[id];
        var actions := if t.stop.Some? then t.stop.value else DEFAULT_ACTIONS;
        w.(interrupts := w.interrupts[id := Upcoming(actions, StartIndex(t.stage))])
    case SequencePersists(id) =>
      var q := w.interrupts[id];
      if IsOver(w.db, id) then w.(interrupts := Drop(w.interrupts, id))
      else w.(db := Moved(w.db, id, ACTIVE, STOPPING, Changes(stage := Some(StopAt(q.index)))),
              interrupts := w.interrupts[id := Applying(q.actions, q.index)])
    case SequenceApplies(id) =>
      var q := w.interrupts[id];
      w.(interrupts := w.interrupts[id := Upcoming(q.actions, q.index + 1)],
         history := w.history.(attempted := w.history.attempted[id := AttemptedBy(w.history, id) + {q.index}]))
    case SequenceKills(id) =>
      if IsOver(w.db, id) then w.(interrupts := Drop(w.interrupts, id))
      else w.(db := Moved(w.db, id, ACTIVE, STOPPING, Changes(stage := Some(Sigkill))),
              interrupts := w.interrupts[id := Killing])
    case ExitConfirmed(id, code) =>
      w.(db := Moved(w.db, id, {STOPPING}, CANCELLED, Changes(exitCode := Some(code), ended := true)),
         interrupts := Drop(w.interrupts, id))
    case ShutdownKills(id) =>
      w.(db := Moved(w.db, id, ACTIVE, STOPPING, Changes(stage := Some(Sigkill))),
         interrupts := w.interrupts[id := Killing])
    case SequenceLost(id) =>
      w.(interrupts := Drop(w.interrupts, id), history := w.history.(lost := w.history.lost + {id}))
    case Purge(id) =>
      w.(db := Db(Drop(w.db.tasks, id), WithoutEvents(w.db.events, id)))
    case Crash(rebooted, limit) =>
      World(w.db, limit, None, {}, map[], map[], Recovering(rebooted, None, [], true),
            w.history.(peak := |Active(w.db)|, targets := Active(w.db), visited := [], lost := {}))
    case FetchPage =>
      var page := Page(Active(w.db), TASK_PAGE_SIZE, w.mode.cursor);
      w.(mode := if page == [] then w.mode.(more := false)
                 else w.mode.(page := page, cursor := Some(page[|page| - 1]), more := |page| == TASK_PAGE_SIZE))
    case RecoverNext(completed, running) =>
      var id := w.mode.page[0];
      DoRecover(w, id, ReportOf(w.mode.rebooted, completed, running)).(
        mode := w.mode.(page := w.mode.page[1..]),
        history := w.history.(visited := w.history.visited + [id]))
    case RecoveryEnds =>
      w.(mode := Serving)
  }
}
