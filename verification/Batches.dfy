/** storage.py: host-allocated seeds, task creation, all-or-nothing batches with idempotency
    receipts, and the two ways in which retention removes tasks. */
module Batches {
  import opened Decimals
  import opened Variables
  import opened VariableResolver
  import opened Wrappers

  // ---------------------------------------------------------------- requests and rows

  /** A value that the host allocates from the counter of a namespace. */
  datatype Deferral = Deferral(name: string, namespace: string)

  /** A draft: the fields to resolve, the names of its custom fields, and whether the resolved
      task passes validation. */
  datatype Draft = Draft(deferred: seq<Deferral>, payload: Value, custom: set<string>, accepted: bool)

  datatype Seed = Seed(namespace: string, value: int)

  datatype Row = Row(payload: Value, seeds: seq<Seed>, created: int, ended: Option<int>)

  datatype Link = Link(batch: string, task: string)

  datatype Key = Key(actor: string, route: string, key: string)

  datatype Receipt = Receipt(batch: string, tasks: seq<string>, created: int)

  datatype Failure = Unresolved(error: Variables.Error) | Collision | Rejected | Duplicate(id: string) | Fault

  /** `issued` lists the seeds of committed tasks in commit order; no code reads it. */
  datatype Issue = Issue(task: string, seed: Seed)

  datatype Tables = Tables(
    counters: map<string, int>,
    tasks: map<string, Row>,
    batches: set<string>,
    links: seq<Link>,
    receipts: map<Key, Receipt>,
    issued: seq<Issue>)

  const EMPTY := Tables(map[], map[], {}, [], map[], [])

  // ---------------------------------------------------------------- seeds

  function Previous(counters: map<string, int>, namespace: string): int {
    if namespace in counters then counters[namespace] else 0
  }

  function Larger(a: int, b: int): int {
    if a >= b then a else b
  }

  /** The seeds of a list of deferrals; `clock(k)` is the clock at the k-th allocation. */
  function Seeds(counters: map<string, int>, d: seq<Deferral>, clock: nat -> int, k: nat): (r: seq<Seed>)
    ensures |r| == |d|
    decreases d
  {
    if d == [] then [] else
    var value := Larger(clock(k), Previous(counters, d[0].namespace) + 1);
    [Seed(d[0].namespace, value)] + Seeds(counters[d[0].namespace := value], d[1..], clock, k + 1)
  }

  /** The counters after giving out `seeds`. */
  function Advance(counters: map<string, int>, seeds: seq<Seed>): map<string, int>
    decreases seeds
  {
    if seeds == [] then counters else Advance(counters[seeds[0].namespace := seeds[0].value], seeds[1..])
  }

  function Rendering(value: int): string {
    if value >= 0 then Decimal(value) else "-" + Decimal(-value)
  }

  /** The text of a seed reads back as the seed. */
  lemma RenderingParses(value: int)
    ensures ParseInt(Rendering(value)) == Some(value)
  {
    hide ParseInt, Decimal;
    if value >= 0 {
      DecimalParses(value);
    } else {
      SignParses(-value);
    }
  }

  /** The layer that the payload of a draft is resolved against. */
  function SeedLayer(d: seq<Deferral>, seeds: seq<Seed>): Document
    requires |seeds| == |d|
  {
    if d == [] then [] else
    [Entry(d[0].name, Scalar(Rendering(seeds[0].value)))] + SeedLayer(d[1..], seeds[1..])
  }

  function TableOf(document: Document): map<string, Value> {
    if document == [] then map[] else
    var last := document[|document| - 1];
    TableOf(document[..|document| - 1])[last.key := last.value]
  }

  /** `_materialize_draft_locked`: the payload of the row, given the seeds. */
  ghost function Materialized(draft: Draft, seeds: seq<Seed>): Result<Value, Failure>
    requires |seeds| == |draft.deferred|
  {
    if draft.deferred == [] then
      if draft.accepted then Ok(draft.payload) else Err(Rejected)
    else
      match EvalValue(Env(TableOf(SeedLayer(draft.deferred, seeds)), {}), draft.payload, [])
      case Err(e) => Err(Unresolved(e))
      case Ok(v) =>
        if exists d :: d in draft.deferred && d.name in draft.custom then Err(Collision)
        else if !draft.accepted then Err(Rejected)
        else Ok(v)
  }

  // ---------------------------------------------------------------- creation

  function Issues(task: string, seeds: seq<Seed>): seq<Issue> {
    seq(|seeds|, i requires 0 <= i < |seeds| => Issue(task, seeds[i]))
  }

  /** One more task, in `batch` if there is one. */
  ghost function Inserted(t: Tables, batch: Option<string>, id: string, draft: Draft, at: int,
                          clock: nat -> int, k: nat): Result<Tables, Failure> {
    var seeds := Seeds(t.counters, draft.deferred, clock, k);
    match Materialized(draft, seeds)
    case Err(e) => Err(e)
    case Ok(payload) =>
      if id in t.tasks then Err(Duplicate(id)) else
      Ok(t.(counters := Advance(t.counters, seeds),
            tasks := t.tasks[id := Row(payload, seeds, at, None)],
            links := if batch.Some? then t.links + [Link(batch.value, id)] else t.links,
            issued := t.issued + Issues(id, seeds)))
  }

  /** The first `n` tasks of a batch; `fault` is the write that the database refuses. */
  ghost function InsertedAll(t: Tables, batch: string, tasks: seq<(string, Draft)>, at: int, clock: nat -> int,
                             fault: Option<nat>, n: nat): Result<Tables, Failure>
    requires n <= |tasks|
  {
    if n == 0 then Ok(t) else
    match InsertedAll(t, batch, tasks, at, clock, fault, n - 1)
    case Err(e) => Err(e)
    case Ok(u) =>
      if fault == Some(n - 1) then Err(Fault)
      else Inserted(u, Some(batch), tasks[n - 1].0, tasks[n - 1].1, at, clock, Readings(tasks, n - 1))
  }

  /** How often the clock was read for the first `n` tasks. */
  function Readings(tasks: seq<(string, Draft)>, n: nat): nat
    requires n <= |tasks|
  {
    if n == 0 then 0 else Readings(tasks, n - 1) + |tasks[n - 1].1.deferred|
  }

  function Ids(tasks: seq<(string, Draft)>): seq<string> {
    seq(|tasks|, i requires 0 <= i < |tasks| => tasks[i].0)
  }

  datatype Reply =
    | Created(tasks: seq<string>)
    | Replayed(receipt: Receipt)
    | NotFound(id: string)
    | Failed(error: Failure)

  /** The first task of a list that has no row. */
  function Absent(rows: map<string, Row>, ids: seq<string>): Option<string> {
    if ids == [] then None
    else if ids[0] in rows then Absent(rows, ids[1..])
    else Some(ids[0])
  }

  datatype Request = Request(
    batch: string,
    tasks: seq<(string, Draft)>,
    key: Option<Key>,
    at: int,
    clock: nat -> int,
    fault: Option<nat>)

  /** The whole transaction, without a receipt in place. */
  ghost function Transaction(t: Tables, r: Request): Result<Tables, Failure> {
    if r.batch in t.batches then Err(Duplicate(r.batch)) else
    match InsertedAll(t.(batches := t.batches + {r.batch}), r.batch, r.tasks, r.at, r.clock, r.fault, |r.tasks|)
    case Err(e) => Err(e)
    case Ok(u) =>
      if r.fault == Some(|r.tasks|) then Err(Fault)
      else Ok(if r.key.Some?
              then u.(receipts := u.receipts[r.key.value := Receipt(r.batch, Ids(r.tasks), r.at)])
              else u)
  }

  predicate IsReplay(t: Tables, r: Request) {
    r.key.Some? && r.key.value in t.receipts
  }

  /** `create_batch`: what is stored after it, and what it returns or raises. */
  ghost function Submitted(t: Tables, r: Request): (Tables, Reply) {
    if IsReplay(t, r) then
      var receipt := t.receipts[r.key.value];
      var absent := Absent(t.tasks, receipt.tasks);
      (t, if absent.Some? then NotFound(absent.value) else Replayed(receipt))
    else
      match Transaction(t, r)
      case Ok(u) => (u, Created(Ids(r.tasks)))
      case Err(e) => (t, Failed(e))
  }

  // ---------------------------------------------------------------- retention

  function KeptLinks(links: seq<Link>, gone: set<string>): seq<Link> {
    if links == [] then [] else
    var rest := KeptLinks(links[1..], gone);
    if links[0].task in gone then rest else [links[0]] + rest
  }

  /** `_delete_tasks` */
  function Deleted(t: Tables, gone: set<string>): Tables {
    var links := KeptLinks(t.links, gone);
    t.(tasks := t.tasks - gone, links := links,
       batches := set b | b in t.batches && exists l :: l in links && l.batch == b)
  }

  function EndedBefore(t: Tables, cutoff: int): set<string> {
    set id | id in t.tasks && t.tasks[id].ended.Some? && t.tasks[id].ended.value < cutoff
  }

  /** `purge_retention`, called with the same cutoff for tasks and receipts. */
  function Expired(t: Tables, cutoff: int): Tables {
    var gone := EndedBefore(t, cutoff);
    var u := if gone == {} then t else Deleted(t, gone);
    u.(receipts := map k | k in t.receipts && t.receipts[k].created >= cutoff :: t.receipts[k])
  }

  /** `purge_terminal_task` */
  function Evicted(t: Tables, id: string): Tables {
    if id in t.tasks && t.tasks[id].ended.Some? then Deleted(t, {id}) else t
  }

  function Ended(t: Tables, id: string, at: int): Tables {
    if id in t.tasks && t.tasks[id].ended.None?
    then t.(tasks := t.tasks[id := t.tasks[id].(ended := Some(at))])
    else t
  }

  /** `get_batch` */
  function BatchTasks(links: seq<Link>, batch: string): seq<string> {
    if links == [] then [] else
    var last := links[|links| - 1];
    BatchTasks(links[..|links| - 1], batch) + if last.batch == batch then [last.task] else []
  }
}
