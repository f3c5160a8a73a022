/** service.py `_schedule`, lines 443-492: how the moving cursor sweeps a backlog. */
module QueueSweep {
  import opened Collections
  import opened Wrappers
  import opened TaskOrder
  import opened TaskModel
  import opened Scheduler
  import opened LifecycleSafety

  /** The number of pages of size `n` that `x` tasks fill: `x / n`, rounded up. */
  function Pages(x: nat, n: nat): nat
    requires n > 0
    decreases x
  {
    if x == 0 then 0 else 1 + Pages(if x <= n then 0 else x - n, n)
  }

  lemma {:induction false} PagesMonotone(x: nat, y: nat, n: nat)
    requires n > 0 && x <= y
    ensures Pages(x, n) <= Pages(y, n)
    decreases y
  {
    if x > 0 {
      PagesMonotone(if x <= n then 0 else x - n, if y <= n then 0 else y - n, n);
    }
  }

  lemma {:induction false} PagesOfSum(x: nat, y: nat, n: nat)
    requires n > 0
    ensures Pages(x, n) + Pages(y, n) <= Pages(x + y, n) + 1
    decreases x
  {
    if x > n {
      PagesOfSum(x - n, y, n);
    } else {
      PagesMonotone(y, x + y, n);
    }
  }

  /** `low` is the beginning of `s`. */
  ghost predicate IsLow(low: set<Id>, s: set<Id>) {
    low <= s && forall x, y :: x in low && y in s - low ==> Before(x, y)
  }

  lemma LowSorts(low: set<Id>, s: set<Id>)
    requires IsLow(low, s)
    ensures Sorted(s) == Sorted(low) + Sorted(s - low)
  {
    hide Sorted, Before;
    var a, b := Sorted(low), Sorted(s - low);
    assert Ascending(a + b) by {
      forall i, j | 0 <= i < j < |a + b| ensures Before((a + b)[i], (a + b)[j]) {
        if i < |a| <= j {
          assert a[i] in Elements(a) && b[j - |a|] in Elements(b);
        }
      }
    }
    ElementsAppend(a, b);
    assert low + (s - low) == s;
    AscendingUnique(Sorted(s), a + b);
  }

  lemma ElementsAppend(a: seq<Id>, b: seq<Id>)
    ensures Elements(a + b) == Elements(a) + Elements(b)
  {
    forall x | x in Elements(a) + Elements(b) ensures x in Elements(a + b) {
      if x in Elements(a) {
        var i :| 0 <= i < |a| && a[i] == x;
        assert (a + b)[i] == x;
      } else {
        var i :| 0 <= i < |b| && b[i] == x;
        assert (a + b)[|a| + i] == x;
      }
    }
  }

  /** A page takes the low tasks first. */
  lemma PageTakesLow(low: set<Id>, s: set<Id>, n: nat)
    requires IsLow(low, s)
    ensures var page := Take(Sorted(s), n);
            && (|page| < n ==> low <= Elements(page))
            && |low - Elements(page)| <= (if |low| <= n then 0 else |low| - n)
  {
    hide Sorted, Elements;
    var page := Take(Sorted(s), n);
    var a, b := Sorted(low), Sorted(s - low);
    LowSorts(low, s);
    if |low| <= n {
      TakeWhole(a, b, n);
      ElementsAppend(a, Take(b, n - |a|));
      assert low - Elements(page) == {};
    } else {
      TakePart(a, b, n);
      assert a == page + a[n..];
      ElementsAppend(page, a[n..]);
      ElementsBound(a[n..]);
      SubsetSize(low - Elements(page), Elements(a[n..]));
    }
  }

  lemma TakeWhole(a: seq<Id>, b: seq<Id>, n: nat)
    requires |a| <= n
    ensures Take(a + b, n) == a + Take(b, n - |a|)
  {
  }

  lemma TakePart(a: seq<Id>, b: seq<Id>, n: nat)
    requires n < |a|
    ensures Take(a + b, n) == a[..n]
  {
  }

  lemma {:induction false} ElementsBound(ids: seq<Id>)
    ensures |Elements(ids)| <= |ids|
    decreases |ids|
  {
    if ids != [] {
      var init, last := ids[..|ids| - 1], ids[|ids| - 1];
      ElementsBound(init);
      assert ids == init + [last];
      ElementsAppend(init, [last]);
      assert Elements([last]) == {last} by {
        assert [last][0] == last;
      }
    } else {
      assert Elements(ids) == {};
    }
  }

  /** Behind a full page lie exactly the tasks it did not take. */
  lemma BehindPage(s: set<Id>, cursor: Option<Id>, n: nat)
    requires n > 0 && |Page(s, n, cursor)| == n
    ensures After(s, Some(Page(s, n, cursor)[n - 1])) == After(s, cursor) - Elements(Page(s, n, cursor))
  {
    var behind := After(s, cursor);
    var page := Page(s, n, cursor);
    var all := Sorted(behind);
    assert page == all[..n];
    TailMembers(all, n);
    forall x ensures x in After(s, Some(page[n - 1])) <==> x in behind - Elements(page) {
      AroundCut(all, n, x);
      if x in After(s, Some(page[n - 1])) && cursor.Some? {
        assert page[n - 1] in Elements(all);
      }
    }
  }

  lemma AroundCut(all: seq<Id>, n: nat, x: Id)
    requires Ascending(all) && 0 < n <= |all|
    ensures x in Elements(all[..n]) ==> !Before(all[n - 1], x) && x in Elements(all)
    ensures x in Elements(all) && !Before(all[n - 1], x) ==> x in Elements(all[..n])
  {
    assert all == all[..n] + all[n..];
    ElementsAppend(all[..n], all[n..]);
    TailMembers(all, n);
    if x in Elements(all[..n]) {
      var i :| 0 <= i < |all[..n]| && all[..n][i] == x;
      assert all[i] == x;
    }
  }

  // ---------------------------------------------------------------- a run of ticks

  /** A tick with capacity left: it scans all of its page; tasks may leave the queue, none arrive. */
  datatype Trace = Trace(queues: seq<set<Id>>, cursors: seq<Option<Id>>, limits: seq<nat>)

  ghost predicate IsTrace(t: Trace, least: nat) {
    && |t.queues| == |t.cursors| == |t.limits| + 1
    && forall i :: 0 <= i < |t.limits| ==> IsTickAt(t, i, least)
  }

  ghost predicate IsTickAt(t: Trace, i: nat, least: nat)
    requires i < |t.limits| && |t.queues| == |t.cursors| == |t.limits| + 1
  {
    && 0 < least <= t.limits[i]
    && t.queues[i + 1] <= t.queues[i]
    && var (page, from) := QueuePage(t.queues[i], t.limits[i], t.cursors[i]);
       t.cursors[i + 1] == NextCursor(page, |page|, t.limits[i], from)
  }

  ghost function PageAt(t: Trace, i: nat): set<Id>
    requires i < |t.limits| && |t.queues| == |t.cursors| == |t.limits| + 1
  {
    Elements(QueuePage(t.queues[i], t.limits[i], t.cursors[i]).0)
  }

  /** Some tick from `i` on examines `x`, or `x` leaves the queue. */
  ghost predicate ExaminedOrGone(t: Trace, i: nat, x: Id)
    requires |t.queues| == |t.cursors| == |t.limits| + 1
  {
    (exists j :: i <= j < |t.limits| && x in PageAt(t, j)) || (exists j :: i <= j < |t.queues| && x !in t.queues[j])
  }

  lemma Later(t: Trace, i: nat, x: Id)
    requires |t.queues| == |t.cursors| == |t.limits| + 1 && i < |t.limits|
    requires x in PageAt(t, i) || x !in t.queues[i + 1] || ExaminedOrGone(t, i + 1, x)
    ensures ExaminedOrGone(t, i, x)
  {
  }

  ghost function Rest(unseen: set<Id>, page: seq<Id>, next: set<Id>): set<Id> {
    (unseen - Elements(page)) * next
  }

  /** One page taken where the unseen tasks are the first ones behind the cursor. */
  lemma ForwardTick(q: set<Id>, n: nat, c: Option<Id>, next: set<Id>, unseen: set<Id>, least: nat)
    requires IsLow(unseen, After(q, c)) && unseen != {} && 0 < least <= n && next <= q
    ensures var page := Page(q, n, c);
            && page != [] && |page| <= n
            && (|page| < n ==> Rest(unseen, page, next) == {})
            && (|page| == n ==>
                  && IsLow(Rest(unseen, page, next), After(next, Some(page[n - 1])))
                  && Pages(|Rest(unseen, page, next)|, least) + 1 <= Pages(|unseen|, least))
  {
    hide Sorted, Before, Elements;
    var page := Page(q, n, c);
    var x0 :| x0 in unseen;
    assert x0 in After(q, c);
    PageNonEmpty(q, n, c, x0);
    PageTakesLow(unseen, After(q, c), n);
    if |page| == n {
      BehindPage(q, c, n);
      RestIsLow(unseen, q, c, page, next);
      SubsetSize(Rest(unseen, page, next), unseen - Elements(page));
      PagesMonotone(|Rest(unseen, page, next)|, if |unseen| <= least then 0 else |unseen| - least, least);
    }
  }

  lemma PageNonEmpty(q: set<Id>, n: nat, c: Option<Id>, x: Id)
    requires n > 0 && x in After(q, c)
    ensures Page(q, n, c) != []
  {
    hide Sorted;
    assert |Sorted(After(q, c))| > 0;
  }

  lemma RestIsLow(unseen: set<Id>, q: set<Id>, c: Option<Id>, page: seq<Id>, next: set<Id>)
    requires IsLow(unseen, After(q, c)) && page != [] && next <= q
    requires After(q, Some(page[|page| - 1])) == After(q, c) - Elements(page)
    ensures IsLow(Rest(unseen, page, next), After(next, Some(page[|page| - 1])))
  {
    hide Before, Elements;
    var cut := Some(page[|page| - 1]);
    assert After(next, cut) == After(q, cut) * next;
  }

  lemma ExaminedNow(t: Trace, i: nat, later: nat, unseen: set<Id>, page: seq<Id>)
    requires |t.queues| == |t.cursors| == |t.limits| + 1 && i < |t.limits| && PageAt(t, i) == Elements(page)
    requires later == i + 1 && forall x :: x in Rest(unseen, page, t.queues[later]) ==> ExaminedOrGone(t, later, x)
    ensures forall x :: x in unseen ==> ExaminedOrGone(t, i, x)
  {
    hide ExaminedOrGone, Elements, PageAt;
    forall x | x in unseen ensures ExaminedOrGone(t, i, x) {
      Later(t, i, x);
    }
  }

  /** Sweeping forward: the unseen tasks are the first ones behind the cursor. */
  lemma {:induction false} SweepForward(t: Trace, i: nat, least: nat, unseen: set<Id>)
    requires IsTrace(t, least) && i < |t.queues| && least > 0
    requires IsLow(unseen, After(t.queues[i], t.cursors[i]))
    requires |t.limits| - i >= Pages(|unseen|, least)
    ensures forall x :: x in unseen ==> ExaminedOrGone(t, i, x)
    decreases |t.limits| - i
  {
    hide IsLow, Page, After, ExaminedOrGone, Elements, Pages;
    NoPages(unseen, least);
    if unseen != {} {
      var q, n, c := t.queues[i], t.limits[i], t.cursors[i];
      assert IsTickAt(t, i, least);
      ForwardTick(q, n, c, t.queues[i + 1], unseen, least);
      var page := Page(q, n, c);
      if |page| == n {
        SweepForward(t, i + 1, least, Rest(unseen, page, t.queues[i + 1]));
      }
      ExaminedNow(t, i, i + 1, unseen, page);
    }
  }

  lemma NoPages(s: set<Id>, least: nat)
    requires least > 0
    ensures s != {} ==> Pages(|s|, least) > 0
  {
    if s != {} {
      assert |s| > 0;
    }
  }

  /** The cursor stands behind everything: this tick starts over. */
  lemma WrapNow(t: Trace, i: nat, least: nat, low: set<Id>)
    requires IsTrace(t, least) && i < |t.queues| && least > 0 && t.cursors[i].Some?
    requires IsLow(low, t.queues[i]) && After(t.queues[i], t.cursors[i]) == {}
    requires |t.limits| - i >= Pages(|low|, least)
    ensures forall x :: x in low ==> ExaminedOrGone(t, i, x)
  {
    hide IsLow, ExaminedOrGone, Elements, Pages, Sorted, Before, After, Page;
    NoPages(low, least);
    if low != {} {
      var q, n := t.queues[i], t.limits[i];
      assert IsTickAt(t, i, least);
      AllBehindNothing(q);
      EmptyPageBehind(q, n, t.cursors[i]);
      ForwardTick(q, n, None, t.queues[i + 1], low, least);
      var page := Page(q, n, None);
      if |page| == n {
        SweepForward(t, i + 1, least, Rest(low, page, t.queues[i + 1]));
      }
      ExaminedNow(t, i, i + 1, low, page);
    }
  }

  /** Before the cursor has wrapped: `low` are the unseen tasks up to the cursor, and everything
      behind the cursor is unseen. */
  lemma {:induction false} SweepWraps(t: Trace, i: nat, least: nat, low: set<Id>, high: set<Id>)
    requires IsTrace(t, least) && i < |t.queues| && least > 0 && t.cursors[i].Some?
    requires IsLow(low, t.queues[i]) && low !! high && high == After(t.queues[i], t.cursors[i])
    requires |t.limits| - i >= Pages(|high|, least) + Pages(|low|, least)
    ensures forall x :: x in low || x in high ==> ExaminedOrGone(t, i, x)
    decreases |t.limits| - i
  {
    hide IsLow, Page, After, ExaminedOrGone, Elements, Pages;
    NoPages(high, least);
    if high == {} {
      WrapNow(t, i, least, low);
    } else {
      var q, c, n, next := t.queues[i], t.cursors[i], t.limits[i], t.queues[i + 1];
      assert IsTickAt(t, i, least);
      LowOfItself(high);
      ForwardTick(q, n, c, next, high, least);
      var page := Page(q, n, c);
      LowStays(low, high, q, next, page, least);
      if |page| == n {
        HighLeft(q, n, c, next);
        SweepWraps(t, i + 1, least, low * next, Rest(high, page, next));
      } else {
        AllBehindNothing(next);
        SweepForward(t, i + 1, least, low * next);
      }
      ExaminedNow(t, i, i + 1, high, page);
      ExaminedNow(t, i, i + 1, low, page);
    }
  }

  lemma EmptyPageBehind(q: set<Id>, n: nat, c: Option<Id>)
    requires After(q, c) == {}
    ensures Page(q, n, c) == []
  {
  }

  lemma LowOfItself(s: set<Id>)
    ensures IsLow(s, s)
  {
  }

  lemma AllBehindNothing(s: set<Id>)
    ensures After(s, None) == s
  {
  }

  lemma LowStays(low: set<Id>, high: set<Id>, q: set<Id>, next: set<Id>, page: seq<Id>, least: nat)
    requires IsLow(low, q) && next <= q && low !! high && least > 0
    ensures IsLow(low * next, next) && low * next !! Rest(high, page, next)
    ensures Pages(|low * next|, least) <= Pages(|low|, least)
    ensures Rest(low, page, next) <= low * next
  {
    hide Pages;
    SubsetSize(low * next, low);
    PagesMonotone(|low * next|, |low|, least);
  }

  lemma HighLeft(q: set<Id>, n: nat, c: Option<Id>, next: set<Id>)
    requires n > 0 && |Page(q, n, c)| == n && next <= q
    ensures Rest(After(q, c), Page(q, n, c), next) == After(next, Some(Page(q, n, c)[n - 1]))
  {
    hide Page, Elements;
    BehindPage(q, c, n);
    var cut := Some(Page(q, n, c)[n - 1]);
    assert After(next, cut) == After(q, cut) * next;
  }

  /** With capacity left and no arrivals, one tick more than the pages of the backlog examines
      every task that stays queued, wherever the cursor starts. */
  lemma SweepExaminesAll(t: Trace, least: nat)
    requires IsTrace(t, least) && least > 0 && |t.limits| >= Pages(|t.queues[0]|, least) + 1
    ensures forall x :: x in t.queues[0] ==> ExaminedOrGone(t, 0, x)
  {
    hide ExaminedOrGone, Pages;
    var q, c := t.queues[0], t.cursors[0];
    if c.None? {
      AllBehindNothing(q);
      LowOfItself(q);
      SweepForward(t, 0, least, q);
    } else {
      var high := After(q, c);
      var low := q - high;
      assert q == low + high && |q| == |low| + |high|;
      PagesOfSum(|high|, |low|, least);
      SweepWraps(t, 0, least, low, high);
    }
  }

  /** A scheduler tick that does not exhaust its capacity is one step of such a sweep, with pages
      of at least 500. */
  lemma TickSweeps(db: Db, limit: Option<nat>, cursor: Option<Id>, t: Trace)
    requires DbOk(db) && t == Trace([InStates(db, {QUEUED}), InStates(Tick(db, limit, cursor).db, {QUEUED})],
                                    [cursor, Tick(db, limit, cursor).cursor],
                                    [ScanLimit(Capacity(limit, |Active(db)|))])
    requires limit.Some? ==> |Active(Tick(db, limit, cursor).db)| < limit.value
    ensures IsTrace(t, 500)
    ensures forall id :: id in Tick(db, limit, cursor).started ==> id in PageAt(t, 0)
  {
    hide Page, Walk, IsQueuePage, MutexSafe, HeldKeys, Active;
    var capacity := Capacity(limit, |Active(db)|);
    var page := WalkedPage(db, limit, cursor);
    TickIsWalk(db, limit, cursor);
    WalkKeeps(db, page, HeldKeys(db), capacity);
    WalkStarts(db, page, HeldKeys(db), capacity);
    var w := Walk(db, page, HeldKeys(db), capacity);
    assert capacity != Some(0) && w.scanned == |page|;
    assert IsTickAt(t, 0, 500);
    forall id | id in w.started ensures id in PageAt(t, 0) {
      assert id in page;
      var k :| 0 <= k < |page| && page[k] == id;
      assert id in Elements(page);
    }
  }
}
