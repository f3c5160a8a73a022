/** The task table: models.py `TaskState`, and storage.py `transition`, `list_tasks`, `snapshot_stop`. */
module TaskModel {
  import opened Collections
  import opened Wrappers
  import opened TaskOrder

  datatype State = QUEUED | STARTING | RUNNING | STOPPING | SUCCEEDED | FAILED | CANCELLED | LOST

  const TERMINAL: set<State> := {SUCCEEDED, FAILED, CANCELLED, LOST}
  const ACTIVE: set<State> := {STARTING, RUNNING, STOPPING}

  /** The persisted interrupt stage: `queued`, `requested`, `stop:<index>:<type>` or `sigkill`. */
  datatype Stage = QueuedStage | Requested | StopAt(index: nat) | Sigkill

  datatype StopAction = Signal(name: string) | Input(data: string) | Exec(command: seq<string>)

  datatype Task = Task(
    keys: set<string>,
    state: State,
    stage: Option<Stage>,
    stop: Option<seq<StopAction>>,
    exitCode: Option<int>,
    started: bool,
    ended: bool)

  /** The columns that a transition assigns besides the state. */
  datatype Changes = Changes(
    stage: Option<Stage> := None,
    exitCode: Option<int> := None,
    started: bool := false,
    ended: bool := false)

  /** The tables: rows, and the transition events in the order of their insertion. */
  datatype Db = Db(tasks: map<Id, Task>, events: seq<(Id, State)>)

  function Assign(t: Task, state: State, c: Changes): Task {
    t.(state := state,
       stage := if c.stage.Some? then c.stage else t.stage,
       exitCode := if c.exitCode.Some? then c.exitCode else t.exitCode,
       started := t.started || c.started,
       ended := t.ended || c.ended)
  }

  predicate CanTransition(db: Db, id: Id, expected: set<State>) {
    id in db.tasks && db.tasks[id].state in expected
  }

  /** Compare and set: the row changes, with its event, only if its state is an expected one. */
  function Moved(db: Db, id: Id, expected: set<State>, state: State, c: Changes): Db {
    if CanTransition(db, id, expected)
    then Db(db.tasks[id := Assign(db.tasks[id], state, c)], db.events + [(id, state)])
    else db
  }

  function WithStop(db: Db, id: Id, actions: seq<StopAction>): Db {
    if id in db.tasks && db.tasks[id].stop.None?
    then db.(tasks := db.tasks[id := db.tasks[id].(stop := Some(actions))])
    else db
  }

  ghost function InStates(db: Db, states: set<State>): set<Id> {
    set id | id in db.tasks && db.tasks[id].state in states
  }

  ghost function Active(db: Db): set<Id> {
    InStates(db, ACTIVE)
  }

  class Store {
    var tasks: map<Id, Task>
    var events: seq<(Id, State)>

    function Tables(): Db
      reads this
    {
      Db(tasks, events)
    }

    constructor ()
      ensures Tables() == Db(map[], [])
    {
      tasks, events := map[], [];
    }

    method Transition(id: Id, expected: set<State>, state: State, c: Changes) returns (done: bool)
      modifies this
      ensures done == old(CanTransition(Tables(), id, expected))
      ensures Tables() == Moved(old(Tables()), id, expected, state, c)
    {
      done := false;
      if id in tasks {
        var row := tasks[id];
        if row.state in expected {
          var stage := if c.stage.Some? then c.stage else row.stage;
          var code := if c.exitCode.Some? then c.exitCode else row.exitCode;
          tasks := tasks[id := row.(state := state, stage := stage, exitCode := code,
                                    started := row.started || c.started, ended := row.ended || c.ended)];
          events := events + [(id, state)];
          done := true;
        }
      }
    }

    method SnapshotStop(id: Id, actions: seq<StopAction>)
      modifies this
      ensures Tables() == WithStop(old(Tables()), id, actions)
    {
      if id in tasks && tasks[id].stop.None? {
        tasks := tasks[id := tasks[id].(stop := Some(actions))];
      }
    }

    /** `list_tasks(states, limit, after, ascending=True)` */
    method ListTasks(states: set<State>, limit: nat, after: Option<Id>) returns (page: seq<Id>)
      ensures page == Page(InStates(Tables(), states), limit, after)
    {
      hide Sorted, Take;
      var matching := set id | id in tasks && tasks[id].state in states && (after.None? || Before(after.value, id));
      assert matching == After(InStates(Tables(), states), after);
      page := TakeLeast(matching, limit);
    }
  }

  /** `ORDER BY created_at, id LIMIT limit` */
  method TakeLeast(s: set<Id>, limit: nat) returns (page: seq<Id>)
    ensures page == Take(Sorted(s), limit)
  {
    hide Sorted, Take, IsLeast;
    page := [];
    var rest := s;
    ghost var whole := Sorted(s);
    while rest != {} && |page| < limit
      invariant page + Sorted(rest) == whole && |page| <= limit
      decreases rest
    {
      var least := Least(rest);
      LeastIsHead(rest, least);
      MoveHead(page, least, Sorted(rest - {least}));
      assert least in rest by { LeastIsMember(rest, least); }
      page := page + [least];
      rest := rest - {least};
    }
    TakeIsPrefix(page, Sorted(rest), limit);
  }

  lemma LeastIsMember(s: set<Id>, least: Id)
    requires IsLeast(least, s)
    ensures least in s
  {
  }

  lemma MoveHead(a: seq<Id>, x: Id, b: seq<Id>)
    ensures a + ([x] + b) == a + [x] + b
  {
  }

  lemma TakeIsPrefix(page: seq<Id>, rest: seq<Id>, limit: nat)
    requires |page| <= limit && (rest == [] || |page| == limit)
    ensures Take(page + rest, limit) == page
  {
  }

  lemma LeastIsHead(s: set<Id>, least: Id)
    requires IsLeast(least, s)
    ensures Sorted(s) == [least] + Sorted(s - {least})
  {
    SortedCons(least, s, Sorted(s - {least}));
    AscendingUnique(Sorted(s), [least] + Sorted(s - {least}));
  }

  method Least(s: set<Id>) returns (least: Id)
    requires s != {}
    ensures IsLeast(least, s)
  {
    least :| least in s;
    var rest := s - {least};
    while rest != {}
      invariant rest <= s && least in s && least !in rest
      invariant forall x :: x in s && x !in rest && x != least ==> Before(least, x)
      decreases rest
    {
      var x :| x in rest;
      if Before(x, least) {
        least := x;
      }
      rest := rest - {x};
    }
  }
}
