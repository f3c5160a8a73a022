/** storage.py `Store`, creation and retention, as the object that changes its tables in place
    inside a transaction and puts them back when the transaction fails. */
module BatchStore {
  import opened Batches
  import opened Variables
  import opened Wrappers
  import R = VariableResolver

  // ---------------------------------------------------------------- the layer of allocated values

  lemma {:induction false} FlatAssignments(document: R.Document)
    requires forall i :: 0 <= i < |document| ==> document[i].value.Scalar?
    ensures R.Assignments(document, "") == document
  {
    if document != [] {
      FlatAssignments(document[1..]);
      assert document == [document[0]] + [] + document[1..];
    }
  }

  lemma {:induction false} TableAssigns(document: R.Document)
    ensures R.IsAssigned(TableOf(document), document)
  {
    if document != [] {
      var before, last := document[..|document| - 1], document[|document| - 1];
      TableAssigns(before);
      R.OneAssignment(last.key, last.value);
      R.UpdateAppends(TableOf(before), before, map[last.key := last.value], [last]);
      assert document == before + [last];
      assert TableOf(document) == TableOf(before) + map[last.key := last.value];
    }
  }

  lemma {:induction false} SeedLayerIsFlat(d: seq<Deferral>, seeds: seq<Seed>)
    requires |seeds| == |d|
    ensures |SeedLayer(d, seeds)| == |d|
    ensures forall i :: 0 <= i < |d| ==> SeedLayer(d, seeds)[i] == Entry(d[i].name, Scalar(Rendering(seeds[i].value)))
  {
    if d != [] {
      SeedLayerIsFlat(d[1..], seeds[1..]);
    }
  }

  /** A resolver over this one layer knows exactly the allocated values. */
  lemma ResolverKnowsSeeds(d: seq<Deferral>, seeds: seq<Seed>, layer: R.Layer,
      values: map<string, Value>, sources: map<string, string>)
    requires |seeds| == |d| && layer.document == SeedLayer(d, seeds)
    requires R.LaterLayersWin([layer], values, sources)
    ensures values == TableOf(SeedLayer(d, seeds))
  {
    hide R.Assigns, R.LastValue, R.Assignments;
    SeedLayerIsFlat(d, seeds);
    FlatAssignments(layer.document);
    TableAssigns(layer.document);
    assert [layer][..0] == [];
    forall k ensures k in values <==> k in TableOf(layer.document) {
      assert R.Winner([layer], k).Some? <==> R.LayerAssigns(layer, k);
    }
    forall k | k in values ensures values[k] == TableOf(layer.document)[k] {
      assert R.Winner([layer], k) == Some(layer);
    }
  }

  lemma SeedsFrom(counters: map<string, int>, d: seq<Deferral>, clock: nat -> int, k: nat)
    requires d != []
    ensures var s := Seeds(counters, d, clock, k);
            && s[0] == Seed(d[0].namespace, Larger(clock(k), Previous(counters, d[0].namespace) + 1))
            && s[1..] == Seeds(counters[d[0].namespace := s[0].value], d[1..], clock, k + 1)
            && Advance(counters, s) == Advance(counters[d[0].namespace := s[0].value], s[1..])
  {
  }

  class BatchStore {
    var counters: map<string, int>
    var tasks: map<string, Row>
    var batches: set<string>
    var links: seq<Link>
    var receipts: map<Key, Receipt>
    ghost var issued: seq<Issue>

    ghost function State(): Tables
      reads this
    {
      Tables(counters, tasks, batches, links, receipts, issued)
    }

    constructor ()
      ensures State() == EMPTY
    {
      counters, tasks, batches, links, receipts, issued := map[], map[], {}, [], map[], [];
    }

    /** `_allocate_deferred_locked` for the only source there is; `now` is `int(time.time())`. */
    method AllocateDeferred(namespace: string, now: int) returns (value: int)
      modifies `counters
      ensures value >= now && value > Previous(old(counters), namespace)
      ensures value == now || value == Previous(old(counters), namespace) + 1
      ensures counters == old(counters)[namespace := value]
    {
      var previous := if namespace in counters then counters[namespace] else 0;
      value := if now >= previous + 1 then now else previous + 1;
      counters := counters[namespace := value];
    }

    /** The loop over the deferred values of a draft. */
    method AllocateAll(d: seq<Deferral>, clock: nat -> int, k: nat) returns (seeds: seq<Seed>)
      modifies `counters
      ensures seeds == Seeds(old(counters), d, clock, k)
      ensures counters == Advance(old(counters), seeds)
    {
      hide Seeds, Advance;
      seeds := [];
      AdvanceNothing(counters);
      var i := 0;
      while i < |d|
        invariant i <= |d|
        invariant Seeds(old(counters), d, clock, k) == seeds + Seeds(counters, d[i..], clock, k + i)
        invariant Advance(old(counters), Seeds(old(counters), d, clock, k)) ==
          Advance(counters, Seeds(counters, d[i..], clock, k + i))
      {
        SeedsFrom(counters, d[i..], clock, k + i);
        assert d[i..][1..] == d[i + 1..] && d[i..][0] == d[i];
        ghost var rest := Seeds(counters, d[i..], clock, k + i);
        var value := AllocateDeferred(d[i].namespace, clock(k + i));
        assert seeds + rest == seeds + [rest[0]] + rest[1..];
        seeds := seeds + [Seed(d[i].namespace, value)];
        i := i + 1;
      }
      NoSeeds(counters, clock, k + i);
      assert d[i..] == [];
    }

    /** `_materialize_draft_locked` */
    method Materialize(draft: Draft, clock: nat -> int, k: nat) returns (r: Result<Value, Failure>, seeds: seq<Seed>)
      modifies `counters
      ensures seeds == Seeds(old(counters), draft.deferred, clock, k) && counters == Advance(old(counters), seeds)
      ensures r == Materialized(draft, seeds)
    {
      hide Seeds, Advance, TableOf, R.LaterLayersWin, SeedLayer, EvalValue;
      seeds := AllocateAll(draft.deferred, clock, k);
      if draft.deferred == [] {
        return if draft.accepted then Ok(draft.payload) else Err(Rejected), seeds;
      }
      var layer := R.Layer("deferred", SeedLayer(draft.deferred, seeds));
      var resolver := new R.VariableResolver([layer], {});
      ResolverKnowsSeeds(draft.deferred, seeds, layer, resolver.values, resolver.sources);
      var resolved := resolver.Resolve(draft.payload, []);
      if resolved.Err? {
        return Err(Unresolved(resolved.error)), seeds;
      }
      for i := 0 to |draft.deferred|
        invariant forall j :: 0 <= j < i ==> draft.deferred[j].name !in draft.custom
      {
        if draft.deferred[i].name in draft.custom {
          assert draft.deferred[i] in draft.deferred;
          return Err(Collision), seeds;
        }
      }
      return if draft.accepted then Ok(resolved.value) else Err(Rejected), seeds;
    }

    /** The inserts for one task; a failure may leave the tables half changed. */
    method InsertTask(batch: Option<string>, id: string, draft: Draft, at: int, clock: nat -> int, k: nat)
      returns (failure: Option<Failure>)
      modifies this
      ensures match Inserted(old(State()), batch, id, draft, at, clock, k)
              case Ok(t) => failure.None? && State() == t
              case Err(e) => failure == Some(e)
    {
      hide Materialized, Seeds, Advance;
      var payload, seeds := Materialize(draft, clock, k);
      if payload.Err? {
        return Some(payload.error);
      }
      if id in tasks {
        return Some(Duplicate(id));
      }
      tasks := tasks[id := Row(payload.value, seeds, at, None)];
      if batch.Some? {
        links := links + [Link(batch.value, id)];
      }
      issued := issued + Issues(id, seeds);
      return None;
    }

    /** `create_task` */
    method CreateTask(id: string, draft: Draft, at: int, clock: nat -> int) returns (failure: Option<Failure>)
      modifies this
      ensures match Inserted(old(State()), None, id, draft, at, clock, 0)
              case Ok(t) => failure.None? && State() == t
              case Err(e) => failure == Some(e) && State() == old(State())
    {
      hide Inserted;
      var counters0, tasks0, links0 := counters, tasks, links;
      var batches0, receipts0 := batches, receipts;
      ghost var issued0 := issued;
      failure := InsertTask(None, id, draft, at, clock, 0);
      if failure.Some? {
        counters, tasks, links, batches, receipts, issued := counters0, tasks0, links0, batches0, receipts0, issued0;
      }
    }

    /** The part of `create_batch` that can fail half way. */
    method InsertBatch(r: Request) returns (failure: Option<Failure>)
      requires !IsReplay(State(), r)
      modifies this
      ensures match Transaction(old(State()), r)
              case Ok(t) => failure.None? && State() == t
              case Err(e) => failure == Some(e)
    {
      hide Inserted;
      if r.batch in batches {
        return Some(Duplicate(r.batch));
      }
      batches := batches + {r.batch};
      ghost var start := State();
      var i, k := 0, 0;
      while i < |r.tasks|
        invariant i <= |r.tasks| && k == Readings(r.tasks, i)
        invariant InsertedAll(start, r.batch, r.tasks, r.at, r.clock, r.fault, i) == Ok(State())
      {
        if r.fault == Some(i) {
          FailureStays(start, r, i + 1);
          return Some(Fault);
        }
        failure := InsertTask(Some(r.batch), r.tasks[i].0, r.tasks[i].1, r.at, r.clock, k);
        if failure.Some? {
          FailureStays(start, r, i + 1);
          return;
        }
        k := k + |r.tasks[i].1.deferred|;
        i := i + 1;
      }
      if r.fault == Some(i) {
        return Some(Fault);
      }
      if r.key.Some? {
        receipts := receipts[r.key.value := Receipt(r.batch, Ids(r.tasks), r.at)];
      }
      return None;
    }

    /** `create_batch` */
    method CreateBatch(r: Request) returns (reply: Reply)
      modifies this
      ensures State() == Submitted(old(State()), r).0
      ensures reply == Submitted(old(State()), r).1
    {
      hide Transaction;
      if r.key.Some? && r.key.value in receipts {
        var receipt := receipts[r.key.value];
        var i := 0;
        assert receipt.tasks[0..] == receipt.tasks;
        while i < |receipt.tasks|
          invariant i <= |receipt.tasks| && unchanged(this)
          invariant Absent(tasks, receipt.tasks) == Absent(tasks, receipt.tasks[i..])
        {
          assert receipt.tasks[i..][1..] == receipt.tasks[i + 1..];
          if receipt.tasks[i] !in tasks {
            return NotFound(receipt.tasks[i]);
          }
          i := i + 1;
        }
        return Replayed(receipt);
      }
      var counters0, tasks0, links0 := counters, tasks, links;
      var batches0, receipts0 := batches, receipts;
      ghost var issued0 := issued;
      var failure := InsertBatch(r);
      if failure.Some? {
        counters, tasks, links, batches, receipts, issued := counters0, tasks0, links0, batches0, receipts0, issued0;
        return Failed(failure.value);
      }
      return Created(Ids(r.tasks));
    }

    /** `_delete_tasks` */
    method DeleteTasks(gone: set<string>)
      modifies this
      ensures State() == Deleted(old(State()), gone)
    {
      hide KeptLinks;
      var kept: seq<Link> := [];
      KeptNothing(gone);
      var i := |links|;
      assert links[i..] == [];
      while i > 0
        invariant i <= |links| && unchanged(this)
        invariant kept == KeptLinks(links[i..], gone)
      {
        i := i - 1;
        KeptOneMore(links, i, gone);
        if links[i].task !in gone {
          kept := [links[i]] + kept;
        }
      }
      assert links[0..] == links;
      links := kept;
      tasks := tasks - gone;
      batches := set b | b in batches && exists l :: l in kept && l.batch == b;
    }

    /** `purge_terminal_task` */
    method PurgeTerminalTask(id: string) returns (done: bool)
      modifies this
      ensures State() == Evicted(old(State()), id)
      ensures done == (id in old(tasks) && old(tasks)[id].ended.Some?)
    {
      done := id in tasks && tasks[id].ended.Some?;
      if done {
        DeleteTasks({id});
      }
    }

    /** `purge_retention`, as `maintain` calls it */
    method PurgeRetention(cutoff: int) returns (gone: set<string>)
      modifies this
      ensures State() == Expired(old(State()), cutoff) && gone == EndedBefore(old(State()), cutoff)
    {
      hide Deleted;
      gone := set id | id in tasks && tasks[id].ended.Some? && tasks[id].ended.value < cutoff;
      ghost var before := State();
      assert gone == EndedBefore(before, cutoff);
      if gone != {} {
        DeleteTasks(gone);
      }
      DeletedReceipts(before, gone);
      receipts := map k | k in receipts && receipts[k].created >= cutoff :: receipts[k];
    }
  }

  lemma DeletedReceipts(t: Tables, gone: set<string>)
    ensures Deleted(t, gone).receipts == t.receipts
  {
  }

  lemma KeptNothing(gone: set<string>)
    ensures KeptLinks([], gone) == []
  {
  }

  lemma KeptOneMore(links: seq<Link>, i: nat, gone: set<string>)
    requires i < |links|
    ensures KeptLinks(links[i..], gone) ==
      (if links[i].task in gone then [] else [links[i]]) + KeptLinks(links[i + 1..], gone)
  {
    assert links[i..][1..] == links[i + 1..];
  }

  lemma NoSeeds(counters: map<string, int>, clock: nat -> int, k: nat)
    ensures Seeds(counters, [], clock, k) == [] && Advance(counters, []) == counters
  {
  }

  lemma AdvanceNothing(counters: map<string, int>)
    ensures Advance(counters, []) == counters
  {
  }

  /** Once the first `i` tasks fail, the whole batch fails, and for the same reason. */
  lemma {:induction false} FailureStays(t: Tables, r: Request, i: nat)
    requires i <= |r.tasks| && InsertedAll(t, r.batch, r.tasks, r.at, r.clock, r.fault, i).Err?
    ensures InsertedAll(t, r.batch, r.tasks, r.at, r.clock, r.fault, |r.tasks|) ==
      InsertedAll(t, r.batch, r.tasks, r.at, r.clock, r.fault, i)
    decreases |r.tasks| - i
  {
    if i < |r.tasks| {
      FailureStays(t, r, i + 1);
    }
  }
}
