/** service.py `_all_tasks` and `_schedule`: one scheduler tick. */
module Scheduler {
  import opened Wrappers
  import opened TaskOrder
  import opened TaskModel

  const TASK_PAGE_SIZE := 10_000

  // ---------------------------------------------------------------- what a tick means

  /** The mutex keys of all active tasks. */
  ghost function HeldKeys(db: Db): set<string> {
    set id, k | id in db.tasks && db.tasks[id].state in ACTIVE && k in db.tasks[id].keys :: k
  }

  /** No two active tasks share a mutex key. */
  ghost predicate MutexSafe(db: Db) {
    forall a, b :: a in Active(db) && b in Active(db) && a != b ==> db.tasks[a].keys !! db.tasks[b].keys
  }

  datatype Walked = Walked(db: Db, scanned: nat, started: seq<Id>)

  function Launch(db: Db, id: Id): Db {
    Moved(db, id, {QUEUED}, STARTING, Changes(started := true))
  }

  function Less(capacity: Option<nat>): Option<nat> {
    if capacity.Some? && capacity.value > 0 then Some(capacity.value - 1) else capacity
  }

  /** The greedy walk over a page of queued tasks: start whatever shares no held key, while
      there is capacity. */
  function Walk(db: Db, page: seq<Id>, held: set<string>, capacity: Option<nat>): (w: Walked)
    ensures w.scanned <= |page|
    decreases |page|
  {
    if page == [] || capacity == Some(0) then Walked(db, 0, []) else
    var id := page[0];
    if !CanTransition(db, id, {QUEUED}) || held * db.tasks[id].keys != {} then
      var rest := Walk(db, page[1..], held, capacity);
      Walked(rest.db, rest.scanned + 1, rest.started)
    else
      var rest := Walk(Launch(db, id), page[1..], held + db.tasks[id].keys, Less(capacity));
      Walked(rest.db, rest.scanned + 1, [id] + rest.started)
  }

  function Capacity(limit: Option<nat>, active: nat): Option<nat> {
    if limit.None? then None else if limit.value <= active then Some(0) else Some(limit.value - active)
  }

  function ScanLimit(capacity: Option<nat>): (n: nat)
    ensures 500 <= n <= TASK_PAGE_SIZE
  {
    if capacity.None? then TASK_PAGE_SIZE
    else if capacity.value * 4 > TASK_PAGE_SIZE then TASK_PAGE_SIZE
    else if capacity.value * 4 < 500 then 500
    else capacity.value * 4
  }

  /** A page has room for four times the capacity, within 500 rows and a whole page; without a limit it is a
      whole page. */
  lemma ScanLimitIs(capacity: Option<nat>)
    ensures var n := ScanLimit(capacity);
            if capacity.None? then n == TASK_PAGE_SIZE
            else (n >= 4 * capacity.value || n == TASK_PAGE_SIZE) && (n <= 4 * capacity.value || n == 500)
  {
  }

  /** The page a tick reads from the queue, and the cursor it was read from: past the end it starts over. */
  ghost function QueuePage(queue: set<Id>, n: nat, cursor: Option<Id>): (seq<Id>, Option<Id>) {
    var page := Page(queue, n, cursor);
    if page == [] && cursor.Some? then (Page(queue, n, None), None) else (page, cursor)
  }

  ghost function TickPage(db: Db, n: nat, cursor: Option<Id>): (seq<Id>, Option<Id>) {
    QueuePage(InStates(db, {QUEUED}), n, cursor)
  }

  function NextCursor(page: seq<Id>, scanned: nat, n: nat, cursor: Option<Id>): Option<Id>
    requires scanned <= |page|
  {
    if scanned == |page| && |page| < n then None
    else if scanned > 0 then Some(page[scanned - 1])
    else cursor
  }

  datatype Ticked = Ticked(db: Db, cursor: Option<Id>, started: seq<Id>)

  /** One tick: a greedy walk over one page of the queue. */
  ghost function Tick(db: Db, limit: Option<nat>, cursor: Option<Id>): Ticked {
    var capacity := Capacity(limit, |Active(db)|);
    if capacity == Some(0) then Ticked(db, cursor, []) else
    var n := ScanLimit(capacity);
    var (page, from) := TickPage(db, n, cursor);
    var w := Walk(db, page, HeldKeys(db), capacity);
    Ticked(w.db, NextCursor(page, w.scanned, n, from), w.started)
  }

  // ---------------------------------------------------------------- what a tick keeps

  ghost predicate IsQueuePage(db: Db, page: seq<Id>) {
    Ascending(page) && forall i :: 0 <= i < |page| ==> CanTransition(db, page[i], {QUEUED})
  }

  lemma TailIsPage(db: Db, page: seq<Id>)
    requires IsQueuePage(db, page) && page != []
    ensures IsQueuePage(db, page[1..])
    ensures IsQueuePage(Launch(db, page[0]), page[1..])
  {
    forall i | 0 <= i < |page[1..]| ensures CanTransition(Launch(db, page[0]), page[1..][i], {QUEUED}) {
      assert Before(page[0], page[i + 1]);
    }
  }

  lemma LaunchKeeps(db: Db, id: Id)
    requires MutexSafe(db) && CanTransition(db, id, {QUEUED}) && HeldKeys(db) * db.tasks[id].keys == {}
    ensures MutexSafe(Launch(db, id))
    ensures HeldKeys(Launch(db, id)) == HeldKeys(db) + db.tasks[id].keys
    ensures Active(Launch(db, id)) == Active(db) + {id} && id !in Active(db)
  {
    var next := Launch(db, id);
    assert Active(next) == Active(db) + {id};
    forall a | a in Active(db) ensures db.tasks[a].keys !! db.tasks[id].keys {
      forall k | k in db.tasks[a].keys ensures k !in db.tasks[id].keys {
        assert k in HeldKeys(db);
        assert k !in HeldKeys(db) * db.tasks[id].keys;
      }
    }
  }

  /** A walk keeps mutual exclusion and the capacity, and stops early only when that is used up. */
  lemma {:induction false} WalkKeeps(db: Db, page: seq<Id>, held: set<string>, capacity: Option<nat>)
    requires MutexSafe(db) && held == HeldKeys(db) && IsQueuePage(db, page)
    ensures var w := Walk(db, page, held, capacity);
            && MutexSafe(w.db) && held <= HeldKeys(w.db)
            && |Active(w.db)| == |Active(db)| + |w.started|
            && (capacity.Some? ==> |w.started| <= capacity.value)
            && (w.scanned == |page| || capacity == Some(|w.started|))
    decreases |page|
  {
    hide MutexSafe, HeldKeys, Active;
    if page != [] && capacity != Some(0) {
      var id := page[0];
      TailIsPage(db, page);
      if held * db.tasks[id].keys != {} {
        WalkKeeps(db, page[1..], held, capacity);
      } else {
        LaunchKeeps(db, id);
        WalkKeeps(Launch(db, id), page[1..], held + db.tasks[id].keys, Less(capacity));
      }
    }
  }

  /** `b` is active in `after`, was active before the walk or precedes position `i` of its page,
      and holds a key that `page[i]` needs. */
  ghost predicate Blocks(before: Db, after: Db, page: seq<Id>, i: nat, b: Id)
    requires i < |page| && page[i] in before.tasks
  {
    && b in Active(after) && (b in Active(before) || b in page[..i])
    && after.tasks[b].keys * before.tasks[page[i]].keys != {}
  }

  /** A scanned task is started, unless an active or an earlier task blocks it. */
  ghost predicate Settled(before: Db, after: Db, page: seq<Id>, i: nat)
    requires i < |page|
  {
    && page[i] in before.tasks && page[i] in after.tasks
    && var t := before.tasks[page[i]];
       (after.tasks[page[i]] == Assign(t, STARTING, Changes(started := true))
        || (after.tasks[page[i]] == t && exists b :: Blocks(before, after, page, i, b)))
  }

  ghost predicate OthersUnchanged(before: Db, after: Db, touched: seq<Id>) {
    && after.tasks.Keys == before.tasks.Keys
    && forall id :: id in before.tasks && id !in touched ==> after.tasks[id] == before.tasks[id]
  }

  /** What a walk does to each task: it settles the scanned ones and leaves the others alone. */
  lemma {:induction false} WalkSettles(db: Db, page: seq<Id>, held: set<string>, capacity: Option<nat>)
    requires MutexSafe(db) && held == HeldKeys(db) && IsQueuePage(db, page)
    ensures var w := Walk(db, page, held, capacity);
            && OthersUnchanged(db, w.db, page[..w.scanned])
            && (forall i :: 0 <= i < w.scanned ==> Settled(db, w.db, page, i))
    decreases |page|
  {
    hide MutexSafe, HeldKeys, Settled, OthersUnchanged, Before;
    var w := Walk(db, page, held, capacity);
    if page == [] || capacity == Some(0) {
      NothingTouched(db);
    } else {
      var id := page[0];
      TailIsPage(db, page);
      HeadIsNew(page, w.scanned);
      var next := if held * db.tasks[id].keys != {} then db else Launch(db, id);
      if next == db {
        WalkSettles(db, page[1..], held, capacity);
      } else {
        LaunchKeeps(db, id);
        WalkSettles(next, page[1..], held + db.tasks[id].keys, Less(capacity));
      }
      TouchedCons(db, next, w.db, page, w.scanned);
      forall i | 0 <= i < w.scanned ensures Settled(db, w.db, page, i) {
        if i == 0 {
          HeadSettled(db, next, w.db, page, w.scanned, held);
        } else {
          TailSettled(db, next, w.db, page, i);
        }
      }
    }
  }

  lemma NothingTouched(db: Db)
    ensures OthersUnchanged(db, db, [])
  {
  }

  lemma HeadIsNew(page: seq<Id>, n: nat)
    requires Ascending(page) && 0 < n <= |page|
    ensures page[0] !in page[1..][..n - 1]
    ensures page[..n] == [page[0]] + page[1..][..n - 1]
  {
    assert forall i :: 1 <= i < |page| ==> Before(page[0], page[i]);
  }

  lemma TouchedCons(db: Db, next: Db, after: Db, page: seq<Id>, n: nat)
    requires 0 < n <= |page| && page[..n] == [page[0]] + page[1..][..n - 1]
    requires next.tasks.Keys == db.tasks.Keys
      && forall id :: id in db.tasks && id != page[0] ==> next.tasks[id] == db.tasks[id]
    requires OthersUnchanged(next, after, page[1..][..n - 1])
    ensures OthersUnchanged(db, after, page[..n])
  {
  }

  lemma HeadSettled(db: Db, next: Db, after: Db, page: seq<Id>, n: nat, held: set<string>)
    requires 0 < n <= |page| && IsQueuePage(db, page) && held == HeldKeys(db)
    requires next == if held * db.tasks[page[0]].keys != {} then db else Launch(db, page[0])
    requires page[0] !in page[1..][..n - 1] && OthersUnchanged(next, after, page[1..][..n - 1])
    requires OthersUnchanged(db, after, page[..n])
    ensures Settled(db, after, page, 0)
  {
    if held * db.tasks[page[0]].keys != {} {
      var k :| k in held * db.tasks[page[0]].keys;
      var b :| b in db.tasks && db.tasks[b].state in ACTIVE && k in db.tasks[b].keys;
      assert b in Active(db);
      forall i | 0 <= i < n ensures page[i] != b {
        assert CanTransition(db, page[i], {QUEUED});
      }
      assert b !in page[..n];
      assert k in after.tasks[b].keys * db.tasks[page[0]].keys;
      assert Blocks(db, after, page, 0, b);
    }
  }

  lemma TailSettled(db: Db, next: Db, after: Db, page: seq<Id>, i: nat)
    requires 0 < i < |page| && Ascending(page) && page[i] in db.tasks && page[0] in db.tasks
    requires next == db || next == Launch(db, page[0])
    requires Settled(next, after, page[1..], i - 1)
    ensures Settled(db, after, page, i)
  {
    assert Before(page[0], page[i]);
    var tail, j := page[1..], i - 1;
    assert tail[j] == page[i] && next.tasks[page[i]] == db.tasks[page[i]];
    assert page[..i] == [page[0]] + tail[..j];
    if exists b :: Blocks(next, after, tail, j, b) {
      var b :| Blocks(next, after, tail, j, b);
      assert Blocks(db, after, page, i, b);
    }
  }
}
