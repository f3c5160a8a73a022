/** What a batch submission in storage.py creates, and exactly when. */
module BatchMeaning {
  import opened Batches
  import opened BatchRuns
  import opened Decimals
  import opened Reachability
  import opened VariableMeaning
  import opened Variables
  import opened Wrappers

  // ---------------------------------------------------------------- seeds in a payload

  predicate IsDeferred(d: seq<Deferral>, name: string) {
    exists i :: 0 <= i < |d| && d[i].name == name
  }

  /** What a name stands for when the deferrals `d` have got `seeds`: the last one of that name counts. */
  ghost predicate IsSeedText(d: seq<Deferral>, seeds: seq<Seed>, name: string, text: string)
    requires |seeds| == |d|
  {
    exists i :: 0 <= i < |d| && d[i].name == name && ParseInt(text) == Some(seeds[i].value)
      && text == Rendering(seeds[i].value) && forall j :: i < j < |d| ==> d[j].name != name
  }

  ghost predicate IsTable(d: seq<Deferral>, seeds: seq<Seed>, table: map<string, Value>)
    requires |seeds| == |d|
  {
    && (forall n :: n in table <==> IsDeferred(d, n))
    && (forall n :: n in table ==> table[n].Scalar? && IsSeedText(d, seeds, n, table[n].rendered))
  }

  lemma {:induction false} LayerIs(d: seq<Deferral>, seeds: seq<Seed>)
    requires |seeds| == |d|
    ensures |SeedLayer(d, seeds)| == |d|
    ensures forall i :: 0 <= i < |d| ==> SeedLayer(d, seeds)[i] == Entry(d[i].name, Scalar(Rendering(seeds[i].value)))
  {
    if d != [] {
      LayerIs(d[1..], seeds[1..]);
    }
  }

  lemma LayerSnoc(d: seq<Deferral>, seeds: seq<Seed>)
    requires |seeds| == |d| > 0
    ensures |SeedLayer(d, seeds)| == |d|
    ensures SeedLayer(d, seeds)[..|d| - 1] == SeedLayer(d[..|d| - 1], seeds[..|d| - 1])
  {
    LayerIs(d, seeds);
    LayerIs(d[..|d| - 1], seeds[..|d| - 1]);
  }

  lemma {:induction false} TableIs(d: seq<Deferral>, seeds: seq<Seed>)
    requires |seeds| == |d|
    ensures IsTable(d, seeds, TableOf(SeedLayer(d, seeds)))
    decreases |d|
  {
    hide ParseInt, Rendering;
    LayerIs(d, seeds);
    if d != [] {
      var last := |d| - 1;
      var before := TableOf(SeedLayer(d[..last], seeds[..last]));
      LayerSnoc(d, seeds);
      TableIs(d[..last], seeds[..last]);
      RenderingParses(seeds[last].value);
      TableSnoc(d, seeds, before);
    }
  }

  lemma DeferredSnoc(d: seq<Deferral>, n: string)
    requires d != []
    ensures IsDeferred(d, n) <==> n == d[|d| - 1].name || IsDeferred(d[..|d| - 1], n)
  {
    var last := |d| - 1;
    if IsDeferred(d[..last], n) {
      var i :| 0 <= i < last && d[..last][i].name == n;
      assert d[i].name == n;
    }
    if IsDeferred(d, n) && n != d[last].name {
      var i :| 0 <= i < |d| && d[i].name == n;
      assert d[..last][i].name == n;
    }
    assert d[last].name == n ==> IsDeferred(d, n);
  }

  lemma SeedTextSnoc(d: seq<Deferral>, seeds: seq<Seed>, n: string, text: string)
    requires |seeds| == |d| > 0 && n != d[|d| - 1].name && IsSeedText(d[..|d| - 1], seeds[..|d| - 1], n, text)
    ensures IsSeedText(d, seeds, n, text)
  {
    hide ParseInt, Rendering;
    var last := |d| - 1;
    var i :| 0 <= i < last && d[..last][i].name == n && ParseInt(text) == Some(seeds[..last][i].value)
      && text == Rendering(seeds[..last][i].value) && forall j :: i < j < last ==> d[..last][j].name != n;
    assert forall j :: i < j < last ==> d[j].name == d[..last][j].name;
    assert d[i].name == n;
  }

  lemma TableSnoc(d: seq<Deferral>, seeds: seq<Seed>, before: map<string, Value>)
    requires |seeds| == |d| > 0 && IsTable(d[..|d| - 1], seeds[..|d| - 1], before)
    requires ParseInt(Rendering(seeds[|d| - 1].value)) == Some(seeds[|d| - 1].value)
    ensures IsTable(d, seeds, before[d[|d| - 1].name := Scalar(Rendering(seeds[|d| - 1].value))])
  {
    hide ParseInt, Rendering, IsDeferred, IsSeedText;
    var last := |d| - 1;
    var table := before[d[last].name := Scalar(Rendering(seeds[last].value))];
    forall n ensures n in table <==> IsDeferred(d, n) {
      DeferredSnoc(d, n);
    }
    forall n | n in table ensures IsSeedText(d, seeds, n, table[n].rendered) {
      if n == d[last].name {
        LastSeedText(d, seeds);
      } else {
        SeedTextSnoc(d, seeds, n, table[n].rendered);
      }
    }
  }

  lemma LastSeedText(d: seq<Deferral>, seeds: seq<Seed>)
    requires |seeds| == |d| > 0 && ParseInt(Rendering(seeds[|d| - 1].value)) == Some(seeds[|d| - 1].value)
    ensures IsSeedText(d, seeds, d[|d| - 1].name, Rendering(seeds[|d| - 1].value))
  {
    hide ParseInt, Rendering;
    assert d[|d| - 1].name == d[|d| - 1].name;
  }

  /** A name resolves exactly if it is deferred, and then to the text of its seed. */
  lemma SeedStands(d: seq<Deferral>, seeds: seq<Seed>, name: string)
    requires |seeds| == |d|
    ensures var r := EvalVar(Env(TableOf(SeedLayer(d, seeds)), {}), name, []);
            if IsDeferred(d, name) then r.Ok? && r.value.Scalar? && IsSeedText(d, seeds, name, r.value.rendered)
            else r == Err(Unknown(name))
  {
    hide IsSeedText, IsDeferred, SeedLayer;
    TableIs(d, seeds);
    var env := Env(TableOf(SeedLayer(d, seeds)), {});
    if name in env.values {
      assert EvalVar(env, name, []) == EvalValue(env, env.values[name], [] + [name]);
    }
  }

  /** The draft can become a row, whatever its seeds: it passes validation, and if it has deferred values, its
      payload refers to nothing else and no custom field has their name. */
  ghost predicate Accepts(draft: Draft) {
    && draft.accepted
    && (draft.deferred != [] ==>
          && (forall n :: n in Refs(draft.payload) ==> IsDeferred(draft.deferred, n))
          && (forall i :: 0 <= i < |draft.deferred| ==> draft.deferred[i].name !in draft.custom))
  }

  lemma SeedsFit(d: seq<Deferral>, seeds: seq<Seed>, v: Value)
    requires |seeds| == |d|
    ensures EvalValue(Env(TableOf(SeedLayer(d, seeds)), {}), v, []).Ok?
       <==> forall n :: n in Refs(v) ==> IsDeferred(d, n)
  {
    hide IsSeedText, IsDeferred, SeedLayer, TableOf, EvalValue, Refs, Embedded;
    var env := Env(TableOf(SeedLayer(d, seeds)), {});
    TableIs(d, seeds);
    ResolvesExactlyWhen(env, v);
    forall n, m | Under(env, n, m) ensures m == n {
      if m != n {
        ScalarsLeadNowhere(env, n, m);
      }
    }
    forall n | n in env.values ensures Fit(env, n) {
      ScalarFits(env, n);
    }
    forall e ensures !DenotesStructure(env, e) {
      ScalarsAreNoStructures(env, e);
    }
    if forall n :: n in Refs(v) ==> IsDeferred(d, n) {
      assert AllFit(env, Refs(v));
    }
    if AllFit(env, Refs(v)) {
      forall n | n in Refs(v) ensures IsDeferred(d, n) {
        assert Under(env, n, n);
      }
    }
  }

  lemma ScalarsLeadNowhere(env: Env, n: string, m: string)
    requires forall k :: k in env.values ==> env.values[k].Scalar?
    ensures !Reaches(RefGraph(env), n, m)
  {
    if Reaches(RefGraph(env), n, m) {
      ReachesBySuccessor(RefGraph(env), n, m);
      assert false;
    }
  }

  lemma ScalarsAreNoStructures(env: Env, n: string)
    requires forall k :: k in env.values ==> env.values[k].Scalar?
    ensures !DenotesStructure(env, n)
  {
  }

  lemma ScalarFits(env: Env, n: string)
    requires (forall k :: k in env.values ==> env.values[k].Scalar?) && n in env.values
    ensures Fit(env, n)
  {
    ScalarsLeadNowhere(env, n, n);
  }

  /** The payload of a row is that of its draft with the text of its own seeds in the place of the references,
      and a draft is refused exactly for the reasons given. */
  lemma MaterializedMeans(draft: Draft, seeds: seq<Seed>)
    requires |seeds| == |draft.deferred|
    ensures var r := Materialized(draft, seeds);
            && (r.Ok? <==> Accepts(draft))
            && (r.Ok? ==> if draft.deferred == [] then r.value == draft.payload
                          else IsFilledIn(Env(TableOf(SeedLayer(draft.deferred, seeds)), {}), draft.payload, r.value))
            && (r.Err? && r.error == Collision ==>
                  exists i :: 0 <= i < |draft.deferred| && draft.deferred[i].name in draft.custom)
            && (r.Err? && r.error == Rejected ==> !draft.accepted)
            && (r.Err? && r.error.Unresolved? ==>
                  exists n :: n in Refs(draft.payload) && !IsDeferred(draft.deferred, n))
  {
    hide SeedLayer, TableOf, EvalValue, Refs, IsDeferred, IsFilledIn;
    if draft.deferred != [] {
      var env := Env(TableOf(SeedLayer(draft.deferred, seeds)), {});
      SeedsFit(draft.deferred, seeds, draft.payload);
      if EvalValue(env, draft.payload, []).Ok? {
        ValueIsFilledIn(env, draft.payload, []);
      }
      if d :| d in draft.deferred && d.name in draft.custom {
        var i :| 0 <= i < |draft.deferred| && draft.deferred[i] == d;
        assert draft.deferred[i].name in draft.custom;
      }
    }
  }

  /** Each seed is the reading of the clock at its turn, or one more than the last seed of its namespace if
      the clock is not beyond that. */
  lemma {:induction false} SeedIs(counters: map<string, int>, d: seq<Deferral>, clock: nat -> int, k: nat, i: nat)
    requires i < |d|
    ensures var seeds := Seeds(counters, d, clock, k);
            var last := Previous(Advance(counters, seeds[..i]), d[i].namespace);
            && seeds[i].namespace == d[i].namespace
            && seeds[i].value == if clock(k + i) > last then clock(k + i) else last + 1
    decreases d
  {
    var seeds := Seeds(counters, d, clock, k);
    if i > 0 {
      var next := counters[seeds[0].namespace := seeds[0].value];
      SeedIs(next, d[1..], clock, k + 1, i - 1);
      assert seeds[1..] == Seeds(next, d[1..], clock, k + 1);
      assert seeds[..i][1..] == seeds[1..][..i - 1] && seeds[..i][0] == seeds[0];
    }
  }

  function AllDeferred(tasks: seq<(string, Draft)>): seq<Deferral> {
    if tasks == [] then [] else tasks[0].1.deferred + AllDeferred(tasks[1..])
  }

  lemma {:induction false} AllDeferredSnoc(tasks: seq<(string, Draft)>, last: (string, Draft))
    ensures AllDeferred(tasks + [last]) == AllDeferred(tasks) + last.1.deferred
  {
    if tasks == [] {
      assert tasks + [last] == [last];
    } else {
      assert (tasks + [last])[1..] == tasks[1..] + [last];
      AllDeferredSnoc(tasks[1..], last);
    }
  }

  /** The clock is read once for every deferred value, in the order of the tasks. */
  lemma {:induction false} ReadingsCount(tasks: seq<(string, Draft)>, n: nat)
    requires n <= |tasks|
    ensures Readings(tasks, n) == |AllDeferred(tasks[..n])|
  {
    if n > 0 {
      ReadingsCount(tasks, n - 1);
      assert tasks[..n] == tasks[..n - 1] + [tasks[n - 1]];
      AllDeferredSnoc(tasks[..n - 1], tasks[n - 1]);
    }
  }

  // ---------------------------------------------------------------- when a batch is created

  /** The first `n` tasks can be inserted one after the other. */
  ghost predicate CanInsert(t: Tables, tasks: seq<(string, Draft)>, fault: Option<nat>, n: nat)
    requires n <= |tasks|
  {
    && (forall k :: 0 <= k < n ==> fault != Some(k) && tasks[k].0 !in t.tasks && Accepts(tasks[k].1))
    && (forall j, k :: 0 <= j < k < n ==> tasks[j].0 != tasks[k].0)
  }

  lemma InsertsOne(t: Tables, batch: string, id: string, draft: Draft, at: int, clock: nat -> int, k: nat)
    ensures var r := Inserted(t, Some(batch), id, draft, at, clock, k);
            && (r.Ok? <==> id !in t.tasks && Accepts(draft))
            && (r.Ok? ==> r.value.tasks.Keys == t.tasks.Keys + {id})
  {
    hide Materialized, Advance, Accepts;
    MaterializedMeans(draft, Seeds(t.counters, draft.deferred, clock, k));
  }

  function IdsUpTo(tasks: seq<(string, Draft)>, n: nat): set<string>
    requires n <= |tasks|
  {
    set k | 0 <= k < n :: tasks[k].0
  }

  lemma CanInsertSnoc(t: Tables, tasks: seq<(string, Draft)>, fault: Option<nat>, n: nat)
    requires 0 < n <= |tasks|
    ensures CanInsert(t, tasks, fault, n) <==>
              && CanInsert(t, tasks, fault, n - 1) && fault != Some(n - 1) && Accepts(tasks[n - 1].1)
              && tasks[n - 1].0 !in t.tasks.Keys + IdsUpTo(tasks, n - 1)
    ensures IdsUpTo(tasks, n) == IdsUpTo(tasks, n - 1) + {tasks[n - 1].0}
  {
    hide Accepts;
    if CanInsert(t, tasks, fault, n - 1) && tasks[n - 1].0 !in IdsUpTo(tasks, n - 1) {
      assert forall k :: 0 <= k < n - 1 ==> tasks[k].0 in IdsUpTo(tasks, n - 1);
    }
  }

  lemma {:induction false} InsertsExactlyWhen(t: Tables, batch: string, tasks: seq<(string, Draft)>, at: int,
      clock: nat -> int, fault: Option<nat>, n: nat)
    requires n <= |tasks|
    ensures var r := InsertedAll(t, batch, tasks, at, clock, fault, n);
            && (r.Ok? <==> CanInsert(t, tasks, fault, n))
            && (r.Ok? ==> r.value.tasks.Keys == t.tasks.Keys + IdsUpTo(tasks, n))
    decreases n
  {
    hide Inserted, CanInsert, Accepts, IdsUpTo;
    if n == 0 {
      InsertsNothing(t, tasks, fault);
    } else {
      InsertsExactlyWhen(t, batch, tasks, at, clock, fault, n - 1);
      CanInsertSnoc(t, tasks, fault, n);
      var r := InsertedAll(t, batch, tasks, at, clock, fault, n - 1);
      if r.Ok? {
        InsertsOne(r.value, batch, tasks[n - 1].0, tasks[n - 1].1, at, clock, Readings(tasks, n - 1));
      }
    }
  }

  lemma InsertsNothing(t: Tables, tasks: seq<(string, Draft)>, fault: Option<nat>)
    ensures CanInsert(t, tasks, fault, 0) && IdsUpTo(tasks, 0) == {}
  {
  }

  /** A submission creates its batch exactly if its key has no receipt, the batch and all its tasks are new and
      different, every draft can become a row, and the database refuses no write. */
  lemma CreatedExactlyWhen(t: Tables, r: Request)
    ensures Submitted(t, r).1.Created? <==>
              && !(r.key.Some? && r.key.value in t.receipts)
              && r.batch !in t.batches && r.fault != Some(|r.tasks|)
              && CanInsert(t, r.tasks, r.fault, |r.tasks|)
    ensures Submitted(t, r).1.Created? ==>
              var u := Submitted(t, r).0;
              && u.batches == t.batches + {r.batch}
              && u.receipts == if r.key.Some?
                               then t.receipts[r.key.value := Receipt(r.batch, Ids(r.tasks), r.at)] else t.receipts
  {
    hide InsertedAll, CanInsert;
    var start := t.(batches := t.batches + {r.batch});
    InsertsExactlyWhen(start, r.batch, r.tasks, r.at, r.clock, r.fault, |r.tasks|);
    SameRows(t, start, r.tasks, r.fault, |r.tasks|);
    InsertsOnlyRows(start, r.batch, r.tasks, r.at, r.clock, r.fault, |r.tasks|);
  }

  lemma SameRows(t: Tables, u: Tables, tasks: seq<(string, Draft)>, fault: Option<nat>, n: nat)
    requires n <= |tasks| && u.tasks == t.tasks
    ensures CanInsert(t, tasks, fault, n) == CanInsert(u, tasks, fault, n)
  {
  }

  lemma {:induction false} InsertsOnlyRows(t: Tables, batch: string, tasks: seq<(string, Draft)>, at: int,
      clock: nat -> int, fault: Option<nat>, n: nat)
    requires n <= |tasks|
    ensures var r := InsertedAll(t, batch, tasks, at, clock, fault, n);
            r.Ok? ==> r.value.batches == t.batches && r.value.receipts == t.receipts
    decreases n
  {
    hide Materialized, Seeds, Advance;
    if n > 0 {
      InsertsOnlyRows(t, batch, tasks, at, clock, fault, n - 1);
    }
  }

  // ---------------------------------------------------------------- retention

  /** Deleting tasks removes their rows and links, and the batches that have no link left, and nothing else. */
  lemma DeletedMeans(t: Tables, gone: set<string>)
    ensures var u := Deleted(t, gone);
            && (forall id :: id in u.tasks <==> id in t.tasks && id !in gone)
            && (forall id :: id in u.tasks ==> u.tasks[id] == t.tasks[id])
            && (forall l :: l in u.links <==> l in t.links && l.task !in gone)
            && (forall b :: b in u.batches <==> b in t.batches && exists l :: l in u.links && l.batch == b)
            && u.counters == t.counters && u.receipts == t.receipts
  {
    KeptLinksAre(t.links, gone);
  }

  /** Expiry removes exactly the tasks that ended before the cutoff and the receipts made before it. */
  lemma ExpiryMeans(t: Tables, cutoff: int)
    ensures var u := Expired(t, cutoff);
            && (forall id :: id in u.tasks <==>
                  id in t.tasks && !(t.tasks[id].ended.Some? && t.tasks[id].ended.value < cutoff))
            && (forall id :: id in u.tasks ==> u.tasks[id] == t.tasks[id])
            && (forall l :: l in u.links <==> l in t.links && l.task !in EndedBefore(t, cutoff))
            && (forall k :: k in u.receipts <==> k in t.receipts && t.receipts[k].created >= cutoff)
            && (forall k :: k in u.receipts ==> u.receipts[k] == t.receipts[k])
            && u.counters == t.counters
            && ((forall id :: id in t.tasks ==> id in u.tasks) ==> u.batches == t.batches && u.links == t.links)
  {
    hide Deleted;
    DeletedMeans(t, EndedBefore(t, cutoff));
    assert EndedBefore(t, cutoff) == {} ==> forall l :: l in t.links ==> l.task !in EndedBefore(t, cutoff);
    if forall id :: id in t.tasks ==> id in Expired(t, cutoff).tasks {
      assert EndedBefore(t, cutoff) == {};
    }
  }

  /** Eviction removes a task that has ended, and leaves any other alone. */
  lemma EvictionMeans(t: Tables, id: string)
    ensures if id in t.tasks && t.tasks[id].ended.Some?
            then Evicted(t, id).tasks == t.tasks - {id} && Evicted(t, id).receipts == t.receipts
                 && (forall l :: l in Evicted(t, id).links <==> l in t.links && l.task != id)
            else Evicted(t, id) == t
  {
    hide KeptLinks;
    DeletedMeans(t, {id});
  }
}
