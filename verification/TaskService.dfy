/** service.py `TaskService`: the fields and methods that carry out the steps of Lifecycle. */
module TaskServices {
  import opened Wrappers
  import opened TaskOrder
  import opened TaskModel
  import opened Scheduler
  import opened Lifecycle

  class TaskService {
    const store: Store
    var maxConcurrency: Option<nat>
    var queueCursor: Option<Id>
    var starters: set<Id>
    var waiters: map<Id, Waiter>
    var interrupts: map<Id, Sequence>
    ghost var mode: Mode
    ghost var history: History

    ghost function View(): World
      reads this, store
    {
      World(store.Tables(), maxConcurrency, queueCursor, starters, waiters, interrupts, mode, history)
    }

    constructor (store: Store)
      requires store.Tables() == Db(map[], [])
      ensures this.store == store && View() == INITIAL
    {
      this.store := store;
      maxConcurrency, queueCursor, starters, waiters, interrupts := None, None, {}, map[], map[];
      mode, history := Serving, History({}, map[], 0, {}, [], {});
    }

    /** `_all_tasks`: page after page behind the last row read. */
    method AllTasks(states: set<State>) returns (all: seq<Id>)
      ensures all == Sorted(InStates(store.Tables(), states))
    {
      hide Sorted, After, Page, InStates;
      ghost var s := InStates(store.Tables(), states);
      var cursor: Option<Id> := None;
      all := [];
      AllBehindNone(s);
      while true
        invariant all + Sorted(After(s, cursor)) == Sorted(s)
        decreases |After(s, cursor)|
      {
        var page := store.ListTasks(states, TASK_PAGE_SIZE, cursor);
        PageSplits(s, cursor, TASK_PAGE_SIZE, page, all);
        if page == [] {
          return;
        }
        all := all + page;
        if |page| < TASK_PAGE_SIZE {
          return;
        }
        cursor := Some(page[|page| - 1]);
      }
    }

    /** `_schedule`: one tick. */
    method ScheduleTick()
      requires mode.Serving?
      modifies this, store
      ensures View() == Do(old(View()), Schedule)
    {
      hide Sorted, After, Page, InStates, Walk;
      ghost var db := store.Tables();
      var active := AllTasks(ACTIVE);
      assert |active| == |Active(db)|;
      var capacity := Capacity(maxConcurrency, |active|);
      var held: set<string> := {};
      var a := 0;
      while a < |active|
        invariant 0 <= a <= |active| && unchanged(this) && unchanged(store)
        invariant held == KeysOf(db, active[..a])
      {
        ActiveRow(db, active, a);
        KeysSnoc(db, active, a);
        held := held + store.tasks[active[a]].keys;
        a := a + 1;
      }
      assert active[..a] == active;
      KeysOfActive(db, active);
      if capacity == Some(0) {
        assert starters + Elements([]) == starters;
        return;
      }
      var n := ScanLimit(capacity);
      var queued := store.ListTasks({QUEUED}, n, queueCursor);
      var from := queueCursor;
      if queued == [] && queueCursor.Some? {
        from := None;
        queueCursor := None;
        queued := store.ListTasks({QUEUED}, n, None);
      }
      var started := WalkQueue(queued, held, capacity, n, from);
    }

    /** The loop of `_schedule` over its page. */
    method WalkQueue(queued: seq<Id>, held0: set<string>, capacity0: Option<nat>, n: nat, from: Option<Id>)
      returns (started: seq<Id>)
      requires queueCursor == from
      modifies this, store
      ensures var w := Walk(old(store.Tables()), queued, held0, capacity0);
              && store.Tables() == w.db && started == w.started
              && queueCursor == NextCursor(queued, w.scanned, n, from)
              && starters == old(starters) + Elements(w.started)
      ensures maxConcurrency == old(maxConcurrency) && waiters == old(waiters) && interrupts == old(interrupts)
      ensures mode == old(mode) && history == old(history)
    {
      ghost var whole := Walk(store.Tables(), queued, held0, capacity0);
      var held, capacity := held0, capacity0;
      var lastScanned: Option<Id> := None;
      var scannedAll := true;
      var i := 0;
      started := [];
      assert Elements(started) == {};
      assert queued[0..] == queued;
      while i < |queued|
        invariant 0 <= i <= |queued| && scannedAll
        invariant Resumes(whole, i, started, Walk(store.Tables(), queued[i..], held, capacity))
        invariant lastScanned == if i == 0 then None else Some(queued[i - 1])
        invariant starters == old(starters) + Elements(started)
        invariant queueCursor == from && maxConcurrency == old(maxConcurrency) && waiters == old(waiters)
        invariant interrupts == old(interrupts) && mode == old(mode) && history == old(history)
      {
        if capacity == Some(0) {
          scannedAll := false;
          break;
        }
        var id := queued[i];
        lastScanned := Some(id);
        assert queued[i..][0] == id && queued[i..][1..] == queued[i + 1..];
        i := i + 1;
        if id !in store.tasks || held * store.tasks[id].keys != {} {
          continue;
        }
        var keys := store.tasks[id].keys;
        var moved := store.Transition(id, {QUEUED}, STARTING, Changes(started := true));
        if moved {
          held := held + keys;
          StartedSnoc(started, id);
          started := started + [id];
          starters := starters + {id};
          capacity := Less(capacity);
        }
      }
      if lastScanned.Some? {
        queueCursor := lastScanned;
      }
      if scannedAll && |queued| < n {
        queueCursor := None;
      }
    }

    /** `_start`, after the executor has answered. */
    method StartAnswered(id: Id, launched: bool)
      requires id in starters
      modifies this, store
      ensures View() == Do(old(View()), if launched then StartSucceeds(id) else StartFails(id))
    {
      if launched {
        var _ := store.Transition(id, {STARTING}, RUNNING, Changes());
        waiters := waiters[id := Waiting];
      } else {
        var _ := store.Transition(id, {STARTING}, FAILED, Changes(exitCode := Some(127), ended := true));
      }
      starters := starters - {id};
    }

    /** `_wait`, from the executor's answer to the next await. */
    method WaitReturned(id: Id, code: int)
      requires id in waiters && waiters[id].Waiting?
      modifies this
      ensures View() == Do(old(View()), WaitReturns(id, code))
    {
      if id !in store.tasks || store.tasks[id].state in TERMINAL {
        waiters := Drop(waiters, id);
      } else {
        var state := if code == 0 then SUCCEEDED else FAILED;
        if store.tasks[id].stage.Some? {
          state := CANCELLED;
        }
        waiters := waiters[id := Deciding(state, code)];
      }
    }

    /** `_wait`, after the result has been evaluated. */
    method WaitCommitted(id: Id)
      requires id in waiters && waiters[id].Deciding?
      modifies this, store
      ensures View() == Do(old(View()), WaitCommits(id))
    {
      var d := waiters[id];
      var _ := store.Transition(id, {RUNNING, STARTING, STOPPING}, d.state,
          Changes(exitCode := Some(d.code), ended := true));
      waiters := Drop(waiters, id);
    }

    /** `interrupt` */
    method InterruptTask(id: Id)
      requires mode.Serving? && id in store.tasks
      modifies this, store
      ensures View() == Do(old(View()), Interrupt(id))
    {
      var task := store.tasks[id];
      if task.state == QUEUED {
        var _ := store.Transition(id, {QUEUED}, CANCELLED, Changes(stage := Some(QueuedStage), ended := true));
      } else if task.state in {STARTING, RUNNING} && id !in interrupts {
        if task.stop.None? {
          store.SnapshotStop(id, DEFAULT_ACTIONS);
        }
        var _ := store.Transition(id, {STARTING, RUNNING}, STOPPING, Changes(stage := Some(Requested)));
        interrupts := interrupts[id := Fresh];
      }
    }

    /** `_interrupt_sequence`, from its start to the choice of the first action. */
    method BeginSequence(id: Id)
      requires id in interrupts && interrupts[id].Fresh?
      modifies this
      ensures View() == Do(old(View()), SequenceBegins(id))
    {
      if id !in store.tasks {
        interrupts := Drop(interrupts, id);
      } else {
        var task := store.tasks[id];
        var actions := if task.stop.Some? then task.stop.value else DEFAULT_ACTIONS;
        interrupts := interrupts[id := Upcoming(actions, StartIndex(task.stage))];
      }
    }

    /** `_interrupt_sequence`, one round: persist the next action, or the forced stop behind the last one. */
    method Escalate(id: Id)
      requires id in interrupts && interrupts[id].Upcoming?
      modifies this, store
      ensures View() == Do(old(View()), if old(interrupts[id].index) < |old(interrupts[id].actions)|
                                          then SequencePersists(id) else SequenceKills(id))
    {
      var q := interrupts[id];
      if id !in store.tasks || store.tasks[id].state in TERMINAL {
        interrupts := Drop(interrupts, id);
      } else if q.index < |q.actions| {
        var _ := store.Transition(id, {STARTING, RUNNING, STOPPING}, STOPPING, Changes(stage := Some(StopAt(q.index))));
        interrupts := interrupts[id := Applying(q.actions, q.index)];
      } else {
        var _ := store.Transition(id, {STARTING, RUNNING, STOPPING}, STOPPING, Changes(stage := Some(Sigkill)));
        interrupts := interrupts[id := Killing];
      }
    }

    /** `recover`, for one task of its page. */
    method RecoverOne(id: Id, hostRestarted: bool, completed: Option<int>, running: bool)
      requires mode.Recovering? && mode.page != [] && mode.page[0] == id && mode.rebooted == hostRestarted
      requires id in store.tasks
      modifies this, store
      ensures View() == Do(old(View()), RecoverNext(completed, running))
    {
      hide Do, Assign, CanTransition;
      ghost var before := View();
      RecoverIs(before, id, completed, running);
      var task := store.tasks[id];
      if hostRestarted {
        var _ := store.Transition(id, ACTIVE, LOST, Changes(ended := true));
      } else if completed.Some? && !running {
        var state := if completed.value == 0 then SUCCEEDED else FAILED;
        if task.stage.Some? {
          state := CANCELLED;
        }
        var _ := store.Transition(id, ACTIVE, state, Changes(exitCode := completed, ended := true));
      } else if running {
        waiters := waiters[id := Waiting];
        if task.stage.Some? {
          interrupts := interrupts[id := Fresh];
        }
      } else if task.stage == Some(Sigkill) {
        var _ := store.Transition(id, ACTIVE, CANCELLED, Changes(exitCode := Some(137), ended := true));
      } else {
        var _ := store.Transition(id, ACTIVE, LOST, Changes(ended := true));
      }
      assert View() == DoRecover(before, id, ReportOf(before.mode.rebooted, completed, running));
      mode, history := mode.(page := mode.page[1..]), history.(visited := history.visited + [id]);
    }
  }

  // ---------------------------------------------------------------- lemmas for the loops

  lemma RecoverIs(w: World, id: Id, completed: Option<int>, running: bool)
    requires Enabled(w, RecoverNext(completed, running)) && id == w.mode.page[0]
    ensures Do(w, RecoverNext(completed, running)) ==
      DoRecover(w, id, ReportOf(w.mode.rebooted, completed, running)).(mode := w.mode.(page := w.mode.page[1..]),
                                history := w.history.(visited := w.history.visited + [id]))
  {
    hide DoRecover;
  }

  lemma AllBehindNone(s: set<Id>)
    ensures After(s, None) == s && [] + Sorted(s) == Sorted(s)
  {
  }

  lemma PageSplits(s: set<Id>, cursor: Option<Id>, n: nat, page: seq<Id>, all: seq<Id>)
    requires n > 0 && page == Page(s, n, cursor) && all + Sorted(After(s, cursor)) == Sorted(s)
    ensures |page| < n ==> all + page == Sorted(s)
    ensures |page| == n ==> all + page + Sorted(After(s, Some(page[n - 1]))) == Sorted(s)
                            && |After(s, Some(page[n - 1]))| < |After(s, cursor)|
    ensures |page| <= n
  {
    hide Sorted;
    var rest := After(s, cursor);
    var sorted := Sorted(rest);
    if |page| == n {
      RestIsAfter(rest, n);
      assert page == sorted[..n] && sorted == page + sorted[n..];
      var cut := Some(page[n - 1]);
      AfterAfter(s, cursor, cut, sorted);
      assert all + (page + sorted[n..]) == all + page + sorted[n..];
    }
  }

  /** Behind a row that is itself behind the cursor. */
  lemma AfterAfter(s: set<Id>, cursor: Option<Id>, cut: Option<Id>, sorted: seq<Id>)
    requires cut.Some? && cut.value in sorted && sorted == Sorted(After(s, cursor))
    ensures After(After(s, cursor), cut) == After(s, cut)
  {
    assert cut.value in Elements(sorted);
  }

  ghost function KeysOf(db: Db, ids: seq<Id>): set<string> {
    set id, k | id in ids && id in db.tasks && k in db.tasks[id].keys :: k
  }

  lemma KeysSnoc(db: Db, ids: seq<Id>, n: nat)
    requires n < |ids| && ids[n] in db.tasks
    ensures KeysOf(db, ids[..n + 1]) == KeysOf(db, ids[..n]) + db.tasks[ids[n]].keys
  {
    assert ids[..n + 1] == ids[..n] + [ids[n]];
  }

  lemma ActiveRow(db: Db, active: seq<Id>, a: nat)
    requires active == Sorted(InStates(db, ACTIVE)) && a < |active|
    ensures active[a] in db.tasks
  {
    assert active[a] in Elements(active);
  }

  lemma KeysOfActive(db: Db, active: seq<Id>)
    requires active == Sorted(InStates(db, ACTIVE))
    ensures KeysOf(db, active) == HeldKeys(db)
  {
    forall id ensures id in active <==> id in db.tasks && db.tasks[id].state in ACTIVE {
      assert id in Elements(active) <==> id in InStates(db, ACTIVE);
    }
  }

  /** The whole walk is what has been scanned and started so far, and the walk of the rest. */
  ghost predicate Resumes(whole: Walked, scanned: nat, started: seq<Id>, rest: Walked) {
    whole.db == rest.db && whole.scanned == scanned + rest.scanned && whole.started == started + rest.started
  }

  lemma StartedSnoc(started: seq<Id>, id: Id)
    ensures Elements(started + [id]) == Elements(started) + {id}
    ensures forall rest: seq<Id> :: started + ([id] + rest) == started + [id] + rest
  {
    var all := started + [id];
    assert all[|started|] == id;
    forall x | x in Elements(started) ensures x in Elements(all) {
      var i :| 0 <= i < |started| && started[i] == x;
      assert all[i] == x;
    }
  }
}
