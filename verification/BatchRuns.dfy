/** What creation and retention keep over every run, under any clock. */
module BatchRuns {
  import opened Batches
  import opened Variables
  import opened Wrappers

  datatype Step =
    | CreateTask(id: string, draft: Draft, at: int, clock: nat -> int)
    | CreateBatch(r: Request)
    | End(id: string, at: int)
    | Evict(id: string)
    | Expire(cutoff: int)

  ghost function Do(t: Tables, s: Step): Tables {
    match s
    case CreateTask(id, draft, at, clock) =>
      (match Inserted(t, None, id, draft, at, clock, 0) case Ok(u) => u case Err(_) => t)
    case CreateBatch(r) => Submitted(t, r).0
    case End(id, at) => Ended(t, id, at)
    case Evict(id) => Evicted(t, id)
    case Expire(cutoff) => Expired(t, cutoff)
  }

  ghost predicate IsRun(ws: seq<Tables>, ss: seq<Step>) {
    && |ws| == |ss| + 1 && ws[0] == EMPTY
    && forall i :: 0 <= i < |ss| ==> ws[i + 1] == Do(ws[i], ss[i])
  }

  // ---------------------------------------------------------------- the invariant

  /** In every namespace the seeds increase in commit order, up to the counter. */
  ghost predicate SeedsOk(counters: map<string, int>, issued: seq<Issue>) {
    && (forall i, j :: 0 <= i < j < |issued| && issued[i].seed.namespace == issued[j].seed.namespace ==>
          issued[i].seed.value < issued[j].seed.value)
    && (forall i :: 0 <= i < |issued| ==>
          issued[i].seed.value <= Previous(counters, issued[i].seed.namespace))
  }

  ghost predicate RowsOk(tasks: map<string, Row>, issued: seq<Issue>) {
    forall id, s :: id in tasks && s in tasks[id].seeds ==> Issue(id, s) in issued
  }

  ghost predicate LinksOk(t: Tables) {
    forall l :: l in t.links ==> l.task in t.tasks && l.batch in t.batches
  }

  ghost predicate Inv(t: Tables) {
    SeedsOk(t.counters, t.issued) && RowsOk(t.tasks, t.issued) && LinksOk(t)
  }

  lemma {:induction false} SeedsExtend(counters: map<string, int>, issued: seq<Issue>, id: string,
                                       d: seq<Deferral>, clock: nat -> int, k: nat)
    requires SeedsOk(counters, issued)
    ensures var seeds := Seeds(counters, d, clock, k);
            SeedsOk(Advance(counters, seeds), issued + Issues(id, seeds))
    decreases d
  {
    hide SeedsOk;
    var seeds := Seeds(counters, d, clock, k);
    if d == [] {
      assert issued + Issues(id, seeds) == issued;
    } else {
      var next := counters[seeds[0].namespace := seeds[0].value];
      var longer := issued + [Issue(id, seeds[0])];
      OneSeed(counters, issued, id, seeds[0]);
      SeedsExtend(next, longer, id, d[1..], clock, k + 1);
      assert seeds[1..] == Seeds(next, d[1..], clock, k + 1);
      assert issued + Issues(id, seeds) == longer + Issues(id, seeds[1..]);
    }
  }

  lemma OneSeed(counters: map<string, int>, issued: seq<Issue>, id: string, s: Seed)
    requires SeedsOk(counters, issued) && s.value > Previous(counters, s.namespace)
    ensures SeedsOk(counters[s.namespace := s.value], issued + [Issue(id, s)])
  {
  }

  lemma InsertedKeeps(t: Tables, batch: Option<string>, id: string, draft: Draft, at: int, clock: nat -> int, k: nat)
    requires Inv(t) && (batch.Some? ==> batch.value in t.batches)
    requires Inserted(t, batch, id, draft, at, clock, k).Ok?
    ensures Inv(Inserted(t, batch, id, draft, at, clock, k).value)
  {
    hide SeedsOk, Seeds, Advance, Materialized;
    var seeds := Seeds(t.counters, draft.deferred, clock, k);
    SeedsExtend(t.counters, t.issued, id, draft.deferred, clock, k);
    forall s | s in seeds ensures Issue(id, s) in Issues(id, seeds) {
      var i :| 0 <= i < |seeds| && seeds[i] == s;
      assert Issues(id, seeds)[i] == Issue(id, s);
    }
  }

  lemma {:induction false} InsertedAllKeeps(t: Tables, batch: string, tasks: seq<(string, Draft)>, at: int,
                                            clock: nat -> int, fault: Option<nat>, n: nat)
    requires Inv(t) && batch in t.batches && n <= |tasks|
    requires InsertedAll(t, batch, tasks, at, clock, fault, n).Ok?
    ensures var u := InsertedAll(t, batch, tasks, at, clock, fault, n).value;
            Inv(u) && u.batches == t.batches && u.receipts == t.receipts
  {
    hide Inv, Seeds, Materialized;
    if n > 0 {
      InsertedAllKeeps(t, batch, tasks, at, clock, fault, n - 1);
      var u := InsertedAll(t, batch, tasks, at, clock, fault, n - 1).value;
      InsertedKeeps(u, Some(batch), tasks[n - 1].0, tasks[n - 1].1, at, clock, Readings(tasks, n - 1));
    }
  }

  lemma {:induction false} KeptLinksAre(links: seq<Link>, gone: set<string>)
    ensures forall l :: l in KeptLinks(links, gone) <==> l in links && l.task !in gone
  {
    if links != [] {
      KeptLinksAre(links[1..], gone);
      assert forall l :: l in links <==> l == links[0] || l in links[1..];
    }
  }

  lemma DeletedKeeps(t: Tables, gone: set<string>)
    requires Inv(t)
    ensures Inv(Deleted(t, gone))
  {
    hide SeedsOk;
    KeptLinksAre(t.links, gone);
  }

  lemma StepKeeps(t: Tables, s: Step)
    requires Inv(t)
    ensures Inv(Do(t, s))
  {
    hide SeedsOk, Inserted, InsertedAll, Deleted;
    match s
    case CreateTask(id, draft, at, clock) =>
      if Inserted(t, None, id, draft, at, clock, 0).Ok? {
        InsertedKeeps(t, None, id, draft, at, clock, 0);
      }
    case CreateBatch(r) =>
      if !IsReplay(t, r) && Transaction(t, r).Ok? {
        var start := t.(batches := t.batches + {r.batch});
        assert Inv(start);
        InsertedAllKeeps(start, r.batch, r.tasks, r.at, r.clock, r.fault, |r.tasks|);
      }
    case End(id, at) =>
    case Evict(id) => DeletedKeeps(t, {id});
    case Expire(cutoff) => DeletedKeeps(t, EndedBefore(t, cutoff));
  }

  lemma {:induction false} RunKeeps(ws: seq<Tables>, ss: seq<Step>, i: nat)
    requires IsRun(ws, ss) && i < |ws|
    ensures Inv(ws[i])
  {
    if i > 0 {
      hide Inv, Do;
      RunKeeps(ws, ss, i - 1);
      assert ws[i - 1 + 1] == Do(ws[i - 1], ss[i - 1]);
      StepKeeps(ws[i - 1], ss[i - 1]);
    }
  }

  // ---------------------------------------------------------------- seeds over runs

  /** Whatever the clock does, in every run the seeds of committed tasks strictly increase, per
      namespace, in the order of the commits. */
  lemma SeedsIncrease(ws: seq<Tables>, ss: seq<Step>, n: nat, i: nat, j: nat)
    requires IsRun(ws, ss) && n < |ws| && i < j < |ws[n].issued|
    requires ws[n].issued[i].seed.namespace == ws[n].issued[j].seed.namespace
    ensures ws[n].issued[i].seed.value < ws[n].issued[j].seed.value
  {
    RunKeeps(ws, ss, n);
  }

  /** No two tasks of the table hold the same seed of a namespace. */
  lemma LiveSeedsDiffer(ws: seq<Tables>, ss: seq<Step>, n: nat, a: string, b: string, s: Seed)
    requires IsRun(ws, ss) && n < |ws| && a in ws[n].tasks && b in ws[n].tasks
    requires s in ws[n].tasks[a].seeds && s in ws[n].tasks[b].seeds
    ensures a == b
  {
    RunKeeps(ws, ss, n);
    var issued := ws[n].issued;
    var i :| 0 <= i < |issued| && issued[i] == Issue(a, s);
    var j :| 0 <= j < |issued| && issued[j] == Issue(b, s);
  }

  // ---------------------------------------------------------------- whole batches

  lemma {:induction false} BatchTasksAppend(links: seq<Link>, l: Link, batch: string)
    ensures BatchTasks(links + [l], batch) == BatchTasks(links, batch) + if l.batch == batch then [l.task] else []
  {
    assert (links + [l])[..|links|] == links;
  }

  lemma {:induction false} NoBatchTasks(links: seq<Link>, batch: string)
    requires forall l :: l in links ==> l.batch != batch
    ensures BatchTasks(links, batch) == []
  {
    if links != [] {
      NoBatchTasks(links[..|links| - 1], batch);
      assert links[|links| - 1] in links;
    }
  }

  /** The row of a draft: its payload resolved against its own seeds, one for each deferral. */
  ghost predicate IsRowOf(row: Row, draft: Draft, at: int) {
    && row.created == at && row.ended.None?
    && |row.seeds| == |draft.deferred|
    && Materialized(draft, row.seeds) == Ok(row.payload)
  }

  lemma InsertedIs(t: Tables, batch: string, id: string, draft: Draft, at: int, clock: nat -> int, k: nat)
    requires Inserted(t, Some(batch), id, draft, at, clock, k).Ok?
    ensures var u := Inserted(t, Some(batch), id, draft, at, clock, k).value;
            && id !in t.tasks && id in u.tasks && IsRowOf(u.tasks[id], draft, at)
            && u.tasks == t.tasks[id := u.tasks[id]]
            && BatchTasks(u.links, batch) == BatchTasks(t.links, batch) + [id]
  {
    hide Materialized, Advance, BatchTasks;
    BatchTasksAppend(t.links, Link(batch, id), batch);
  }

  /** What the insertion of the first `n` tasks has done. */
  lemma {:induction false} InsertedAllIs(t: Tables, batch: string, tasks: seq<(string, Draft)>, at: int,
                                         clock: nat -> int, fault: Option<nat>, n: nat)
    requires n <= |tasks| && InsertedAll(t, batch, tasks, at, clock, fault, n).Ok?
    ensures var u := InsertedAll(t, batch, tasks, at, clock, fault, n).value;
            && (forall i :: 0 <= i < n ==>
                  tasks[i].0 !in t.tasks && tasks[i].0 in u.tasks && IsRowOf(u.tasks[tasks[i].0], tasks[i].1, at))
            && (forall i, j :: 0 <= i < j < n ==> tasks[i].0 != tasks[j].0)
            && u.tasks.Keys == t.tasks.Keys + (set i | 0 <= i < n :: tasks[i].0)
            && (forall id :: id in t.tasks ==> id in u.tasks && u.tasks[id] == t.tasks[id])
            && BatchTasks(u.links, batch) == BatchTasks(t.links, batch) + Ids(tasks)[..n]
  {
    hide Inserted, IsRowOf, BatchTasks, Readings;
    if n == 0 {
      assert BatchTasks(t.links, batch) + Ids(tasks)[..0] == BatchTasks(t.links, batch);
    } else {
      InsertedAllIs(t, batch, tasks, at, clock, fault, n - 1);
      var u := InsertedAll(t, batch, tasks, at, clock, fault, n - 1).value;
      InsertedIs(u, batch, tasks[n - 1].0, tasks[n - 1].1, at, clock, Readings(tasks, n - 1));
      TakeOneMore(BatchTasks(t.links, batch), Ids(tasks), n - 1);
    }
  }

  lemma IdsAre(tasks: seq<(string, Draft)>)
    ensures (set id | id in Ids(tasks)) == (set i | 0 <= i < |tasks| :: tasks[i].0)
  {
    forall i | 0 <= i < |tasks| ensures tasks[i].0 in Ids(tasks) {
      assert Ids(tasks)[i] == tasks[i].0;
    }
  }

  lemma TakeOneMore(before: seq<string>, ids: seq<string>, n: nat)
    requires n < |ids|
    ensures before + ids[..n] + [ids[n]] == before + ids[..n + 1]
  {
  }

  /** A batch is all or nothing: what is not created leaves every table as it was, and what is
      created adds exactly one row for each draft and can be read back in order. */
  lemma AllOrNothing(ws: seq<Tables>, ss: seq<Step>, i: nat, r: Request)
    requires IsRun(ws, ss) && i < |ss| && ss[i] == CreateBatch(r)
    ensures !Submitted(ws[i], r).1.Created? ==> ws[i + 1] == ws[i]
    ensures Submitted(ws[i], r).1.Created? ==>
      var t, u := ws[i], ws[i + 1];
      && u.tasks.Keys == t.tasks.Keys + (set id | id in Ids(r.tasks))
      && (forall id :: id in t.tasks ==> id in u.tasks && u.tasks[id] == t.tasks[id])
      && (forall k :: 0 <= k < |r.tasks| ==>
            r.tasks[k].0 !in t.tasks && r.tasks[k].0 in u.tasks && IsRowOf(u.tasks[r.tasks[k].0], r.tasks[k].1, r.at))
      && BatchTasks(u.links, r.batch) == Ids(r.tasks)
      && (forall j, k :: 0 <= j < k < |r.tasks| ==> r.tasks[j].0 != r.tasks[k].0)
  {
    hide IsRowOf, InsertedAll, BatchTasks, SeedsOk, RowsOk;
    RunKeeps(ws, ss, i);
    assert ws[i + 1] == Do(ws[i], ss[i]);
    var t := ws[i];
    if Submitted(t, r).1.Created? {
      var start := t.(batches := t.batches + {r.batch});
      InsertedAllIs(start, r.batch, r.tasks, r.at, r.clock, r.fault, |r.tasks|);
      NoBatchTasks(t.links, r.batch);
      assert Ids(r.tasks)[..|r.tasks|] == Ids(r.tasks) && [] + Ids(r.tasks) == Ids(r.tasks);
      IdsAre(r.tasks);
    }
  }

  // ---------------------------------------------------------------- receipts

  /** A receipt outlasts every step but an expiry whose cutoff lies after its creation. */
  lemma ReceiptStays(t: Tables, s: Step, key: Key)
    requires key in t.receipts && (s.Expire? ==> s.cutoff <= t.receipts[key].created)
    ensures key in Do(t, s).receipts && Do(t, s).receipts[key] == t.receipts[key]
  {
    hide Materialized, Seeds, InsertedAll;
    if s.CreateBatch? && !IsReplay(t, s.r) && Transaction(t, s.r).Ok? {
      InsertedAllReceipts(t.(batches := t.batches + {s.r.batch}),
                          s.r.batch, s.r.tasks, s.r.at, s.r.clock, s.r.fault, |s.r.tasks|);
    }
  }

  lemma {:induction false} InsertedAllReceipts(t: Tables, batch: string, tasks: seq<(string, Draft)>, at: int,
                                               clock: nat -> int, fault: Option<nat>, n: nat)
    requires n <= |tasks| && InsertedAll(t, batch, tasks, at, clock, fault, n).Ok?
    ensures InsertedAll(t, batch, tasks, at, clock, fault, n).value.receipts == t.receipts
  {
    hide Seeds, Materialized, Advance, Issues;
    if n > 0 {
      InsertedAllReceipts(t, batch, tasks, at, clock, fault, n - 1);
    }
  }

  lemma {:induction false} ReceiptLasts(ws: seq<Tables>, ss: seq<Step>, i: nat, j: nat, key: Key)
    requires IsRun(ws, ss) && i <= j < |ws| && key in ws[i].receipts
    requires forall k :: i <= k < j && ss[k].Expire? ==> ss[k].cutoff <= ws[i].receipts[key].created
    ensures key in ws[j].receipts && ws[j].receipts[key] == ws[i].receipts[key]
    decreases j
  {
    hide Do;
    if i < j {
      ReceiptLasts(ws, ss, i, j - 1, key);
      assert ws[j - 1 + 1] == Do(ws[j - 1], ss[j - 1]);
      ReceiptStays(ws[j - 1], ss[j - 1], key);
    }
  }

  /** Until it expires, the first batch under a key is the only one: every later submission under
      the key changes nothing and is answered with the first receipt, or, exactly when one of the
      first batch's tasks has been removed since, with a lookup error for such a task. */
  lemma ReplayIsTheFirst(ws: seq<Tables>, ss: seq<Step>, i: nat, j: nat, first: Request, again: Request)
    requires IsRun(ws, ss) && i < j < |ss| && ss[i] == CreateBatch(first) && ss[j] == CreateBatch(again)
    requires first.key.Some? && again.key == first.key && Submitted(ws[i], first).1.Created?
    requires forall k :: i < k < j && ss[k].Expire? ==> ss[k].cutoff <= first.at
    ensures ws[j + 1] == ws[j]
    ensures var receipt := Receipt(first.batch, Ids(first.tasks), first.at);
            var reply := Submitted(ws[j], again).1;
            if forall id :: id in Ids(first.tasks) ==> id in ws[j].tasks
            then reply == Replayed(receipt)
            else reply.NotFound? && reply.id in Ids(first.tasks) && reply.id !in ws[j].tasks
  {
    hide InsertedAll;
    assert ws[i + 1] == Do(ws[i], ss[i]) && ws[j + 1] == Do(ws[j], ss[j]);
    var key := first.key.value;
    assert ws[i + 1].receipts[key] == Receipt(first.batch, Ids(first.tasks), first.at);
    ReceiptLasts(ws, ss, i + 1, j, key);
    AbsentIs(ws[j].tasks, Ids(first.tasks));
  }

  lemma {:induction false} AbsentIs(rows: map<string, Row>, ids: seq<string>)
    ensures Absent(rows, ids).None? <==> forall id :: id in ids ==> id in rows
    ensures Absent(rows, ids).Some? ==> Absent(rows, ids).value in ids && Absent(rows, ids).value !in rows
  {
    if ids != [] {
      AbsentIs(rows, ids[1..]);
      assert forall id :: id in ids <==> id == ids[0] || id in ids[1..];
    }
  }

  // ---- when a receipt can outlive its tasks

  /** Every task of every receipt has its row, created with the receipt and not ended before. */
  ghost predicate ReceiptsOk(t: Tables) {
    forall k, id :: k in t.receipts && id in t.receipts[k].tasks ==>
      && id in t.tasks && t.tasks[id].created == t.receipts[k].created
      && (t.tasks[id].ended.Some? ==> t.tasks[id].ended.value >= t.tasks[id].created)
  }

  /** The wall clock does not turn back over the life of a task, and no task is evicted for size. */
  predicate Calm(t: Tables, s: Step) {
    match s
    case Evict(_) => false
    case End(id, at) => id in t.tasks ==> at >= t.tasks[id].created
    case _ => true
  }

  lemma CalmKeeps(t: Tables, s: Step)
    requires ReceiptsOk(t) && Calm(t, s)
    ensures ReceiptsOk(Do(t, s))
  {
    hide Materialized, Seeds, InsertedAll;
    if s.CreateBatch? && !IsReplay(t, s.r) && Transaction(t, s.r).Ok? {
      var r := s.r;
      var start := t.(batches := t.batches + {r.batch});
      InsertedAllReceipts(start, r.batch, r.tasks, r.at, r.clock, r.fault, |r.tasks|);
      InsertedAllIs(start, r.batch, r.tasks, r.at, r.clock, r.fault, |r.tasks|);
      forall id | id in Ids(r.tasks)
        ensures id in Do(t, s).tasks && Do(t, s).tasks[id].created == r.at && Do(t, s).tasks[id].ended.None? {
        var k :| 0 <= k < |r.tasks| && Ids(r.tasks)[k] == id;
        assert IsRowOf(Do(t, s).tasks[r.tasks[k].0], r.tasks[k].1, r.at);
      }
    }
  }

  /** As long as the clock is calm and nothing is evicted for size, age alone never leaves a receipt
      without its tasks: every replay finds them. */
  lemma {:induction false} AgeKeepsReplays(ws: seq<Tables>, ss: seq<Step>, i: nat)
    requires IsRun(ws, ss) && i < |ws| && forall k :: 0 <= k < i ==> Calm(ws[k], ss[k])
    ensures ReceiptsOk(ws[i])
    ensures forall r: Request :: IsReplay(ws[i], r) ==> Submitted(ws[i], r).1 == Replayed(ws[i].receipts[r.key.value])
  {
    if i > 0 {
      AgeKeepsReplays(ws, ss, i - 1);
      assert ws[i - 1 + 1] == Do(ws[i - 1], ss[i - 1]);
      CalmKeeps(ws[i - 1], ss[i - 1]);
    }
    forall r: Request | IsReplay(ws[i], r) ensures Submitted(ws[i], r).1 == Replayed(ws[i].receipts[r.key.value]) {
      AbsentIs(ws[i].tasks, ws[i].receipts[r.key.value].tasks);
    }
  }

  /** An eviction for size leaves the receipt behind: the same request, repeated, then fails. */
  lemma EvictionBreaksReplay() returns (ws: seq<Tables>, ss: seq<Step>)
    ensures IsRun(ws, ss) && ss == [CreateBatch(Sample()), End("t", 2), Evict("t")]
    ensures IsReplay(ws[3], Sample()) && Submitted(ws[3], Sample()).1 == NotFound("t")
  {
    hide Submitted, Ended, Evicted;
    ss := [CreateBatch(Sample()), End("t", 2), Evict("t")];
    var w1 := Do(EMPTY, ss[0]);
    ws := [EMPTY, w1, Do(w1, ss[1]), Do(Do(w1, ss[1]), ss[2])];
    SampleCreates();
    SampleEvicted(w1);
  }

  lemma SampleEvicted(w1: Tables)
    requires "t" in w1.tasks && w1.tasks["t"].ended.None?
      && w1.receipts == map[Sample().key.value := Receipt("b", ["t"], 1)]
    ensures var w3 := Evicted(Ended(w1, "t", 2), "t");
            IsReplay(w3, Sample()) && Submitted(w3, Sample()).1 == NotFound("t")
  {
    var w3 := Evicted(Ended(w1, "t", 2), "t");
    assert "t" !in w3.tasks && w3.receipts == w1.receipts;
    assert Absent(w3.tasks, ["t"]) == Some("t");
  }

  /** One task without deferred values, under a key. */
  function Sample(): Request {
    Request("b", [("t", Draft([], Scalar("x"), {}, true))],
            Some(Key("agent", "/api/v1/runs", "k")), 1, (n: nat) => 1, None)
  }

  lemma SampleCreates()
    ensures var w := Do(EMPTY, CreateBatch(Sample()));
            "t" in w.tasks && w.tasks["t"].ended.None?
            && w.receipts == map[Sample().key.value := Receipt("b", ["t"], 1)]
  {
    var r := Sample();
    var start := EMPTY.(batches := EMPTY.batches + {"b"});
    assert InsertedAll(start, "b", r.tasks, 1, r.clock, None, 0) == Ok(start);
    assert InsertedAll(start, "b", r.tasks, 1, r.clock, None, 1).Ok?;
    assert Ids(r.tasks) == ["t"];
  }
}
