/** The sweep of the backlog as a property of runs: service.py `_schedule` among everything else
    that goes on. */
module QueueRuns {
  import opened Collections
  import opened Wrappers
  import opened TaskOrder
  import opened TaskModel
  import opened Scheduler
  import opened QueueSweep
  import opened Lifecycle
  import opened LifecycleSafety
  import opened LifecycleSteps
  import opened LifecycleRuns

  ghost function Queued(w: World): set<Id> {
    InStates(w.db, {QUEUED})
  }

  /** The task shares a key with an active one. */
  ghost predicate IsBlocked(db: Db, id: Id) {
    id in db.tasks && exists b :: b in Active(db) && db.tasks[b].keys * db.tasks[id].keys != {}
  }

  ghost predicate HasRoom(w: World) {
    w.limit.Some? ==> |Active(w.db)| < w.limit.value
  }

  /** How many tasks a tick of `w` would scan at most. */
  ghost function PageSize(w: World): nat {
    ScanLimit(Capacity(w.limit, |Active(w.db)|))
  }

  ghost predicate IsCalmStep(w: World, s: Step, v: World, least: nat) {
    && !s.Submit? && !s.Crash?
    && (s.Schedule? ==> HasRoom(v) && least <= PageSize(w))
  }

  /** Nothing arrives, the controller stays up, and every tick reads pages of at least `least` tasks
      and ends with capacity left. */
  ghost predicate IsCalm(ws: seq<World>, ss: seq<Step>, i: nat, j: nat, least: nat)
    requires |ws| == |ss| + 1 && j < |ws|
  {
    forall k :: i <= k < j ==> IsCalmStep(ws[k], ss[k], ws[k + 1], least)
  }

  function Ticks(ss: seq<Step>, i: nat, j: nat): nat
    requires i <= j <= |ss|
    decreases j - i
  {
    if i == j then 0 else Ticks(ss, i + 1, j) + if ss[i].Schedule? then 1 else 0
  }

  /** Within the stretch the task has left the queue, or a tick has just found it blocked. */
  ghost predicate LookedAt(ws: seq<World>, ss: seq<Step>, i: nat, j: nat, id: Id)
    requires |ws| == |ss| + 1 && j < |ws|
  {
    exists k :: i <= k <= j && (id !in Queued(ws[k]) || (k > i && ss[k - 1].Schedule? && IsBlocked(ws[k].db, id)))
  }

  /** The ticks of a stretch, each with the queue it finds. */
  ghost function TraceOf(ws: seq<World>, ss: seq<Step>, i: nat, j: nat): (t: Trace)
    requires |ws| == |ss| + 1 && i <= j < |ws|
    ensures |t.queues| == |t.cursors| == |t.limits| + 1 && |t.limits| == Ticks(ss, i, j)
    decreases j - i
  {
    if i == j then Trace([Queued(ws[j])], [ws[j].cursor], []) else
    var rest := TraceOf(ws, ss, i + 1, j);
    if ss[i].Schedule?
    then Trace([Queued(ws[i])] + rest.queues, [ws[i].cursor] + rest.cursors, [PageSize(ws[i])] + rest.limits)
    else rest
  }

  // ---------------------------------------------------------------- one step

  lemma UsedWithoutSubmit(w: World, s: Step)
    requires Enabled(w, s) && !s.Submit?
    ensures Do(w, s).history.used == w.history.used
  {
    hide Tick, Active, WithoutEvents, Moved, WithStop, Page;
  }

  /** Without arrivals the queue only shrinks. */
  lemma QueueShrinks(w: World, s: Step)
    requires Inv(w) && Enabled(w, s) && !s.Submit?
    ensures Queued(Do(w, s)) <= Queued(w)
  {
    hide Inv, Enabled, Do;
    StepKeeps(w, s);
    InvDb(w);
    InvDb(Do(w, s));
    UsedWithoutSubmit(w, s);
    forall id | id in Queued(Do(w, s)) ensures id in Queued(w) {
      if id !in w.db.tasks {
        GoneStays(w, s, id);
      }
      StepForward(w, s, id);
    }
  }

  lemma CursorStays(w: World, s: Step)
    requires Enabled(w, s) && !s.Schedule? && !s.Crash?
    ensures Do(w, s).cursor == w.cursor
  {
    hide Active, WithoutEvents, Moved, WithStop, Page, Tick;
  }

  /** A tick with capacity left starts or finds blocked whatever it reads. */
  lemma TickLooks(db: Db, limit: Option<nat>, cursor: Option<Id>, id: Id)
    requires DbOk(db) && id in Elements(TickPage(db, ScanLimit(Capacity(limit, |Active(db)|)), cursor).0)
    requires limit.Some? ==> |Active(Tick(db, limit, cursor).db)| < limit.value
    ensures var after := Tick(db, limit, cursor).db;
            id in after.tasks && (after.tasks[id].state != QUEUED || IsBlocked(after, id))
  {
    hide Page, Walk, IsQueuePage, MutexSafe, HeldKeys, Active, TickPage, Settled;
    var capacity := Capacity(limit, |Active(db)|);
    var page := WalkedPage(db, limit, cursor);
    TickIsWalk(db, limit, cursor);
    WalkKeeps(db, page, HeldKeys(db), capacity);
    WalkSettles(db, page, HeldKeys(db), capacity);
    var k :| 0 <= k < |page| && page[k] == id;
    SettledLooks(db, Tick(db, limit, cursor).db, page, k);
  }

  lemma SettledLooks(before: Db, after: Db, page: seq<Id>, k: nat)
    requires k < |page| && Settled(before, after, page, k)
    ensures page[k] in after.tasks && (after.tasks[page[k]].state != QUEUED || IsBlocked(after, page[k]))
  {
    hide Active;
  }

  // ---------------------------------------------------------------- where a tick stops

  /** What is behind the queue's cursor, or all of it if nothing is. */
  ghost function Origin(queue: set<Id>, cursor: Option<Id>): Option<Id> {
    if After(queue, cursor) == {} then None else cursor
  }

  /** The queued tasks behind `from` and not behind `to`. */
  ghost function Between(queue: set<Id>, from: Option<Id>, to: Option<Id>): set<Id> {
    After(queue, from) - if to.None? then {} else After(queue, to)
  }

  /** A walk that uses the capacity up stops at the task it started last. */
  lemma {:induction false} WalkStopsAtStart(db: Db, page: seq<Id>, held: set<string>, capacity: Option<nat>)
    ensures var w := Walk(db, page, held, capacity);
            w.started != [] && capacity == Some(|w.started|) ==>
              0 < w.scanned <= |page| && page[w.scanned - 1] == w.started[|w.started| - 1]
    decreases |page|
  {
    if page != [] && capacity != Some(0) {
      var id := page[0];
      if !CanTransition(db, id, {QUEUED}) || held * db.tasks[id].keys != {} {
        WalkStopsAtStart(db, page[1..], held, capacity);
      } else {
        WalkStopsAtStart(Launch(db, id), page[1..], held + db.tasks[id].keys, Less(capacity));
      }
    }
  }

  /** The page of a tick, and where its cursor ends. */
  lemma TickPageIs(queue: set<Id>, n: nat, cursor: Option<Id>)
    requires n > 0
    ensures QueuePage(queue, n, cursor) == (Page(queue, n, Origin(queue, cursor)), Origin(queue, cursor))
  {
    hide Sorted;
    var behind := Sorted(After(queue, cursor));
    if After(queue, cursor) == {} {
      assert behind == [];
    } else {
      assert |behind| > 0;
    }
  }

  /** The first `k` rows of a page are those up to its `k`-th. */
  lemma FirstRows(queue: set<Id>, from: Option<Id>, n: nat, k: nat)
    requires 0 < k <= |Page(queue, n, from)|
    ensures var page := Page(queue, n, from);
            Elements(page[..k]) == Between(queue, from, Some(page[k - 1])) && page[k - 1] in queue
    ensures |Between(queue, from, Some(Page(queue, n, from)[k - 1]))| == k
  {
    hide Sorted;
    var behind := After(queue, from);
    var all, page := Sorted(behind), Page(queue, n, from);
    var first, rest := all[..k], all[k..];
    assert page[..k] == first && page[k - 1] == all[k - 1];
    assert all == first + rest;
    ElementsAppend(first, rest);
    TailMembers(all, k);
    forall x ensures x in Elements(first) <==> x in Between(queue, from, Some(all[k - 1])) {
      AroundCut(all, k, x);
      assert x in Elements(all) <==> x in behind;
    }
    assert all[k - 1] in Elements(all);
    AscendingSize(first);
  }

  lemma {:induction false} AscendingSize(ids: seq<Id>)
    requires Ascending(ids)
    ensures |Elements(ids)| == |ids|
  {
    hide Sorted;
    AscendingUnique(Sorted(Elements(ids)), ids);
  }

  /** A tick without capacity changes nothing, the cursor included. */
  lemma TickWaits(db: Db, limit: Option<nat>, cursor: Option<Id>)
    requires limit.Some? && limit.value <= |Active(db)|
    ensures Tick(db, limit, cursor) == Ticked(db, cursor, [])
  {
  }

  /** How far a tick that has capacity comes: behind its cursor every row is as before; up to it every row
      has left the queue or is blocked by an active task; it stops at the last row of its page or, with
      its capacity used up, at the task it started last; and it starts over only behind the whole queue. */
  lemma TickMoves(db: Db, limit: Option<nat>, cursor: Option<Id>)
    requires DbOk(db) && (limit.Some? ==> |Active(db)| < limit.value)
    ensures var queue := InStates(db, {QUEUED});
            var from := Origin(queue, cursor);
            var t, n := Tick(db, limit, cursor), ScanLimit(Capacity(limit, |Active(db)|));
            var passed := Between(queue, from, t.cursor);
            var usedUp := limit.Some? && |Active(t.db)| == limit.value;
            && (forall id :: id in passed ==>
                  id in t.db.tasks && (t.db.tasks[id].state != QUEUED || IsBlocked(t.db, id)))
            && (forall id :: id in queue - passed ==> id in t.db.tasks && t.db.tasks[id] == db.tasks[id])
            && (t.cursor.None? ==> |passed| < n)
            && (t.cursor.Some? ==> t.cursor.value in passed)
            && (t.cursor.Some? && |passed| < n ==>
                  usedUp && t.started != [] && t.cursor.value == t.started[|t.started| - 1]
                  && passed < After(queue, from))
            && |passed| <= n
  {
    hide Page, Walk, IsQueuePage, MutexSafe, HeldKeys, Active, Settled, Between, IsBlocked, Origin, QueuePage, InStates;
    var queue := InStates(db, {QUEUED});
    var from := Origin(queue, cursor);
    var capacity := Capacity(limit, |Active(db)|);
    var n := ScanLimit(capacity);
    var page := Page(queue, n, from);
    TickPageIs(queue, n, cursor);
    var w := Walk(db, page, HeldKeys(db), capacity);
    PageIsQueuePage(db, n, from);
    WalkKeeps(db, page, HeldKeys(db), capacity);
    WalkSettles(db, page, HeldKeys(db), capacity);
    WalkStopsAtStart(db, page, HeldKeys(db), capacity);
    var t := Tick(db, limit, cursor);
    assert t == Ticked(w.db, NextCursor(page, w.scanned, n, from), w.started);
    EmptyOnlyAtEnd(queue, n, from);
    PassedIs(queue, from, n, page, w.scanned, t.cursor);
    assert |page| <= n && w.scanned <= |page| by { PageLength(queue, n, from); }
    var passed := Between(queue, from, t.cursor);
    forall id | id in passed ensures id in t.db.tasks && (t.db.tasks[id].state != QUEUED || IsBlocked(t.db, id)) {
      var k :| 0 <= k < w.scanned && page[k] == id;
      SettledLooks(db, t.db, page, k);
    }
    forall id | id in queue - passed ensures id in t.db.tasks && t.db.tasks[id] == db.tasks[id] {
      QueuedRow(db, id);
      assert id !in page[..w.scanned];
    }
    var usedUp := limit.Some? && |Active(t.db)| == limit.value;
    assert t.cursor.None? ==> |passed| < n;
    assert t.cursor.Some? ==> t.cursor.value in passed;
    if t.cursor.Some? && |passed| < n {
      assert w.scanned < |page|;
      assert capacity == Some(|w.started|);
      assert usedUp;
    }
  }

  lemma EmptyOnlyAtEnd(queue: set<Id>, n: nat, from: Option<Id>)
    requires n > 0
    ensures Page(queue, n, from) == [] ==> After(queue, from) == {}
  {
    hide Sorted;
  }

  lemma PageLength(queue: set<Id>, n: nat, from: Option<Id>)
    ensures |Page(queue, n, from)| <= n
  {
    hide Sorted;
  }

  lemma QueuedRow(db: Db, id: Id)
    requires id in InStates(db, {QUEUED})
    ensures id in db.tasks
  {
  }

  /** What lies between the two cursors of a walk is what it scanned. */
  lemma PassedIs(queue: set<Id>, from: Option<Id>, n: nat, page: seq<Id>, scanned: nat, to: Option<Id>)
    requires n > 0 && page == Page(queue, n, from) && scanned <= |page| && (page == [] ==> After(queue, from) == {})
    requires scanned == 0 ==> page == []
    requires to == NextCursor(page, scanned, n, from)
    ensures var passed := Between(queue, from, to);
            && (forall id :: id in passed <==> exists k :: 0 <= k < scanned && page[k] == id)
            && |passed| == scanned && (to.Some? ==> to.value in passed)
            && (to.None? ==> scanned == |page| < n) && (scanned < |page| ==> passed < After(queue, from))
  {
    hide Sorted;
    var behind := After(queue, from);
    var all, passed := Sorted(behind), Between(queue, from, to);
    if scanned == |page| < n {
      assert page == all && passed == behind;
      assert forall id :: id in passed <==> id in Elements(all);
    } else {
      FirstRows(queue, from, n, scanned);
      assert forall id :: id in passed <==> id in Elements(page[..scanned]);
      if scanned < |page| {
        assert all[scanned] in Elements(all) && page[scanned] == all[scanned];
        NotAmongFirst(all, scanned);
      }
    }
  }

  lemma NotAmongFirst(all: seq<Id>, k: nat)
    requires Ascending(all) && 0 < k < |all|
    ensures all[k] !in Elements(all[..k])
  {
    assert forall i :: 0 <= i < k ==> Before(all[i], all[k]);
  }

  // ---------------------------------------------------------------- a stretch of a run

  /** The trace of a calm stretch is a sweep. */
  lemma {:induction false} TraceSweeps(ws: seq<World>, ss: seq<Step>, i: nat, j: nat, least: nat)
    requires IsRun(ws, ss) && i <= j < |ws| && IsCalm(ws, ss, i, j, least) && least > 0
    ensures var t := TraceOf(ws, ss, i, j);
            IsTrace(t, least) && t.queues[0] <= Queued(ws[i]) && t.cursors[0] == ws[i].cursor
    decreases j - i
  {
    hide Inv, Enabled, Do, Tick, HasRoom, PageSize, Queued;
    if i < j {
      RunKeeps(ws, ss, i);
      RunKeeps(ws, ss, i + 1);
      TraceSweeps(ws, ss, i + 1, j, least);
      QueueShrinks(ws[i], ss[i]);
      if ss[i].Schedule? {
        FirstTick(ws[i], ss[i], TraceOf(ws, ss, i + 1, j), least);
      } else {
        CursorStays(ws[i], ss[i]);
      }
    }
  }

  lemma FirstTick(w: World, s: Step, rest: Trace, least: nat)
    requires Inv(w) && s.Schedule? && Enabled(w, s) && HasRoom(Do(w, s)) && 0 < least <= PageSize(w)
    requires IsTrace(rest, least) && rest.queues[0] <= Queued(Do(w, s)) <= Queued(w)
      && rest.cursors[0] == Do(w, s).cursor
    ensures IsTrace(Trace([Queued(w)] + rest.queues, [w.cursor] + rest.cursors, [PageSize(w)] + rest.limits), least)
  {
    hide QueuePage, Tick, Active, Inv, ScanLimit;
    InvDb(w);
    var t := Trace([Queued(w)] + rest.queues, [w.cursor] + rest.cursors, [PageSize(w)] + rest.limits);
    var tick := Tick(w.db, w.limit, w.cursor);
    var one := Trace([Queued(w), InStates(tick.db, {QUEUED})], [w.cursor, tick.cursor], [PageSize(w)]);
    TickSweeps(w.db, w.limit, w.cursor, one);
    assert IsTickAt(one, 0, 500);
    forall k | 0 <= k < |t.limits| ensures IsTickAt(t, k, least) {
      if k > 0 {
        assert IsTickAt(rest, k - 1, least);
      }
    }
  }

  lemma TailOfTrace(q: set<Id>, c: Option<Id>, n: nat, rest: Trace, id: Id)
    requires |rest.queues| == |rest.cursors| == |rest.limits| + 1
    ensures ExaminedOrGone(Trace([q] + rest.queues, [c] + rest.cursors, [n] + rest.limits), 0, id) ==>
              id in Elements(QueuePage(q, n, c).0) || id !in q || ExaminedOrGone(rest, 0, id)
  {
    hide QueuePage, Elements;
    var t := Trace([q] + rest.queues, [c] + rest.cursors, [n] + rest.limits);
    if !ExaminedOrGone(t, 0, id) {
    } else if k :| 0 <= k < |t.limits| && id in PageAt(t, k) {
      if k > 0 {
        assert PageAt(rest, k - 1) == PageAt(t, k);
      }
    } else {
      var k :| 0 <= k < |t.queues| && id !in t.queues[k];
      if k > 0 {
        assert rest.queues[k - 1] == t.queues[k];
      }
    }
  }

  /** What the trace examines, or loses, the run looks at. */
  lemma {:induction false} ExaminedIsLookedAt(ws: seq<World>, ss: seq<Step>, i: nat, j: nat, least: nat, id: Id)
    requires IsRun(ws, ss) && i <= j < |ws| && IsCalm(ws, ss, i, j, least)
    ensures ExaminedOrGone(TraceOf(ws, ss, i, j), 0, id) ==> LookedAt(ws, ss, i, j, id)
    decreases j - i
  {
    hide Inv, Enabled, Do, Queued, IsBlocked, HasRoom, PageSize, Elements, QueuePage;
    if i < j && ExaminedOrGone(TraceOf(ws, ss, i, j), 0, id) {
      if ss[i].Schedule? {
        var rest := TraceOf(ws, ss, i + 1, j);
        TailOfTrace(Queued(ws[i]), ws[i].cursor, PageSize(ws[i]), rest, id);
        if id in Elements(QueuePage(Queued(ws[i]), PageSize(ws[i]), ws[i].cursor).0) {
          RunKeeps(ws, ss, i);
          TickOfRun(ws[i], ss[i], id);
          assert ss[i + 1 - 1].Schedule?;
        } else if id in Queued(ws[i]) {
          ExaminedIsLookedAt(ws, ss, i + 1, j, least, id);
          LookedAtLater(ws, ss, i, j, id);
        }
      } else {
        ExaminedIsLookedAt(ws, ss, i + 1, j, least, id);
        LookedAtLater(ws, ss, i, j, id);
      }
    }
  }

  lemma LookedAtLater(ws: seq<World>, ss: seq<Step>, i: nat, j: nat, id: Id)
    requires |ws| == |ss| + 1 && i < j < |ws| && LookedAt(ws, ss, i + 1, j, id)
    ensures LookedAt(ws, ss, i, j, id)
  {
  }

  lemma TickOfRun(w: World, s: Step, id: Id)
    requires Inv(w) && s.Schedule? && Enabled(w, s) && HasRoom(Do(w, s))
    requires id in Elements(QueuePage(Queued(w), PageSize(w), w.cursor).0)
    ensures id !in Queued(Do(w, s)) || IsBlocked(Do(w, s).db, id)
  {
    hide Tick, Active, Inv, Elements, IsBlocked;
    InvDb(w);
    TickLooks(w.db, w.limit, w.cursor, id);
  }

  /** In every run: where nothing arrives, the controller stays up and capacity is left after every
      tick, ceil(n / page size) + 1 ticks come to every one of the n queued tasks, whatever else
      happens between them: it leaves the queue, or a tick finds that it shares a key with an active
      task. */
  lemma BacklogIsSwept(ws: seq<World>, ss: seq<Step>, i: nat, j: nat, least: nat, id: Id)
    requires IsRun(ws, ss) && i <= j < |ws| && IsCalm(ws, ss, i, j, least) && least > 0
    requires Ticks(ss, i, j) >= Pages(|Queued(ws[i])|, least) + 1 && id in Queued(ws[i])
    ensures LookedAt(ws, ss, i, j, id)
  {
    hide Enabled, Do, IsCalm, IsTrace, ExaminedOrGone, Pages, Queued, Ticks;
    var t := TraceOf(ws, ss, i, j);
    TraceSweeps(ws, ss, i, j, least);
    SubsetSize(t.queues[0], Queued(ws[i]));
    PagesMonotone(|t.queues[0]|, |Queued(ws[i])|, least);
    SweepExaminesAll(t, least);
    if id !in t.queues[0] {
      GoneAtOnce(t, id);
    }
    ExaminedIsLookedAt(ws, ss, i, j, least, id);
  }

  lemma GoneAtOnce(t: Trace, id: Id)
    requires |t.queues| == |t.cursors| == |t.limits| + 1 && id !in t.queues[0]
    ensures ExaminedOrGone(t, 0, id)
  {
  }
}
