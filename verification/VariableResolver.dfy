/** variables.py `VariableResolver` as the object it is: layers flattened in order, and a memo table
    that `Variable` fills while it resolves. */
module VariableResolver {
  import opened Collections
  import opened Reachability
  import opened Variables
  import opened Wrappers

  // ---------------------------------------------------------------- flattened layers

  type Document = seq<Entry>

  datatype Layer = Layer(name: string, document: Document)

  function Join(prefix: string, key: string): string {
    if prefix == "" then key else prefix + "." + key
  }

  /** Every path of a document with the value found there, in document order. */
  function Assignments(document: Document, prefix: string): seq<Entry>
    decreases document
  {
    if document == [] then [] else
    var path := Join(prefix, document[0].key);
    [Entry(path, document[0].value)] +
    (if document[0].value.Dict? then Assignments(document[0].value.entries, path) else []) +
    Assignments(document[1..], prefix)
  }

  /** Whether `k` is assigned by `list`. */
  predicate Assigns(list: seq<Entry>, k: string) {
    exists i :: 0 <= i < |list| && list[i].key == k
  }

  /** What the last assignment to `k` gives it. */
  function LastValue(list: seq<Entry>, k: string): Value
    requires Assigns(list, k)
  {
    if list[|list| - 1].key == k then list[|list| - 1].value
    else
      StillAssigned(list, k);
      LastValue(list[..|list| - 1], k)
  }

  lemma StillAssigned(list: seq<Entry>, k: string)
    requires Assigns(list, k) && list[|list| - 1].key != k
    ensures Assigns(list[..|list| - 1], k)
  {
    var i :| 0 <= i < |list| && list[i].key == k;
    assert list[..|list| - 1][i] == list[i];
  }

  /** `i` is the place of the last assignment to `k`. */
  lemma {:induction false} LastValueIsLast(list: seq<Entry>, k: string) returns (i: nat)
    requires Assigns(list, k)
    ensures i < |list| && list[i] == Entry(k, LastValue(list, k))
    ensures forall j :: i < j < |list| ==> list[j].key != k
  {
    var last := |list| - 1;
    if list[last].key == k {
      i := last;
    } else {
      StillAssigned(list, k);
      i := LastValueIsLast(list[..last], k);
      assert forall j :: 0 <= j < last ==> list[..last][j] == list[j];
    }
  }

  /** A dictionary after the assignments of `list`, made in order. */
  ghost predicate IsAssigned(table: map<string, Value>, list: seq<Entry>) {
    forall k :: (k in table <==> Assigns(list, k)) && (k in table ==> table[k] == LastValue(list, k))
  }

  lemma AssignsAppend(list: seq<Entry>, more: seq<Entry>, k: string)
    ensures Assigns(list + more, k) <==> Assigns(list, k) || Assigns(more, k)
  {
    if Assigns(list, k) {
      var i :| 0 <= i < |list| && list[i].key == k;
      assert (list + more)[i].key == k;
    }
    if Assigns(more, k) {
      var i :| 0 <= i < |more| && more[i].key == k;
      assert (list + more)[|list| + i].key == k;
    }
    if Assigns(list + more, k) {
      var i :| 0 <= i < |list + more| && (list + more)[i].key == k;
      assert i < |list| || more[i - |list|].key == k;
    }
  }

  lemma {:induction false} LastAppend(list: seq<Entry>, more: seq<Entry>, k: string)
    requires Assigns(list + more, k)
    ensures Assigns(more, k) ==> LastValue(list + more, k) == LastValue(more, k)
    ensures !Assigns(more, k) ==> Assigns(list, k) && LastValue(list + more, k) == LastValue(list, k)
    decreases |more|
  {
    AssignsAppend(list, more, k);
    if more == [] {
      assert list + more == list;
    } else {
      var last, before := more[|more| - 1], more[..|more| - 1];
      assert (list + more)[|list + more| - 1] == last;
      assert (list + more)[..|list + more| - 1] == list + before;
      assert more == before + [last];
      AssignsAppend(before, [last], k);
      if last.key != k {
        AssignsAppend(list, before, k);
        assert !Assigns([last], k);
        LastAppend(list, before, k);
      } else {
        assert more[|more| - 1].key == k;
      }
    }
  }

  lemma EmptyIsAssigned()
    ensures IsAssigned(map[], [])
  {
  }

  /** `dict.update`: the assignments of one dictionary after those of another. */
  lemma UpdateAppends(table: map<string, Value>, list: seq<Entry>, update: map<string, Value>, more: seq<Entry>)
    requires IsAssigned(table, list) && IsAssigned(update, more)
    ensures IsAssigned(table + update, list + more)
  {
    forall k
      ensures (k in table + update <==> Assigns(list + more, k))
      ensures k in table + update ==> (table + update)[k] == LastValue(list + more, k)
    {
      AssignsAppend(list, more, k);
      if Assigns(list + more, k) {
        LastAppend(list, more, k);
      }
    }
  }

  lemma OneAssignment(key: string, value: Value)
    ensures IsAssigned(map[key := value], [Entry(key, value)])
  {
    var list := [Entry(key, value)];
    assert list[0].key == key;
    assert LastValue(list, key) == value;
  }

  /** What the entry `e` and its nested dictionaries assign. */
  function Own(e: Entry, prefix: string): seq<Entry> {
    [Entry(Join(prefix, e.key), e.value)] +
    (if e.value.Dict? then Assignments(e.value.entries, Join(prefix, e.key)) else [])
  }

  lemma AssignmentsFrom(document: Document, prefix: string, i: nat)
    requires i < |document|
    ensures Assignments(document[i..], prefix) == Own(document[i], prefix) + Assignments(document[i + 1..], prefix)
  {
    var rest := document[i..];
    assert rest[0] == document[i] && rest[1..] == document[i + 1..];
  }

  method Flatten(document: Document, prefix: string) returns (result: map<string, Value>)
    ensures IsAssigned(result, Assignments(document, prefix))
    decreases document
  {
    hide IsAssigned;
    EmptyIsAssigned();
    result := map[];
    ghost var done: seq<Entry> := [];
    assert document[0..] == document;
    for i := 0 to |document|
      invariant IsAssigned(result, done)
      invariant Assignments(document, prefix) == done + Assignments(document[i..], prefix)
    {
      var item := document[i].value;
      var path := Join(prefix, document[i].key);
      var nested := map[];
      ghost var below: seq<Entry> := [];
      EmptyIsAssigned();
      if item.Dict? {
        nested := Flatten(item.entries, path);
        below := Assignments(item.entries, path);
      }
      OneAssignment(path, item);
      UpdateAppends(result, done, map[path := item], [Entry(path, item)]);
      UpdateAppends(result + map[path := item], done + [Entry(path, item)], nested, below);
      AssignmentsFrom(document, prefix, i);
      Associative(done, [Entry(path, item)], below);
      Associative(done, Own(document[i], prefix), Assignments(document[i + 1..], prefix));
      assert result[path := item] == result + map[path := item];
      result := result[path := item] + nested;
      done := done + Own(document[i], prefix);
    }
    assert document[|document|..] == [] && done + [] == done;
  }

  ghost predicate LayerAssigns(layer: Layer, k: string) {
    Assigns(Assignments(layer.document, ""), k)
  }

  /** `i` is the last layer that mentions `k`. */
  ghost predicate Wins(layers: seq<Layer>, k: string, i: nat) {
    i < |layers| && LayerAssigns(layers[i], k) && forall j :: i < j < |layers| ==> !LayerAssigns(layers[j], k)
  }

  ghost function Winner(layers: seq<Layer>, k: string): (w: Option<Layer>)
    ensures w.Some? ==> LayerAssigns(w.value, k)
  {
    if layers == [] then None else
    var last := layers[|layers| - 1];
    if LayerAssigns(last, k) then Some(last) else Winner(layers[..|layers| - 1], k)
  }

  lemma {:induction false} WinnerIsLast(layers: seq<Layer>, k: string)
    ensures Winner(layers, k).Some? ==> exists i: nat :: Wins(layers, k, i) && layers[i] == Winner(layers, k).value
    ensures Winner(layers, k).None? ==> forall i | 0 <= i < |layers| :: !LayerAssigns(layers[i], k)
  {
    hide LayerAssigns;
    if layers != [] {
      var last := |layers| - 1;
      if LayerAssigns(layers[last], k) {
        assert Wins(layers, k, last);
      } else {
        WinnerIsLast(layers[..last], k);
        if Winner(layers, k).Some? {
          var i: nat :| Wins(layers[..last], k, i) && layers[..last][i] == Winner(layers, k).value;
          assert forall j :: i < j < last ==> layers[..last][j] == layers[j];
          assert Wins(layers, k, i);
        } else {
          assert forall j :: 0 <= j < last ==> layers[..last][j] == layers[j];
        }
      }
    }
  }

  /** Every name has the value and the source that the last layer to mention it gives it. */
  ghost predicate LaterLayersWin(layers: seq<Layer>, values: map<string, Value>, sources: map<string, string>) {
    forall k ::
      && (k in values <==> Winner(layers, k).Some?) && (k in sources <==> Winner(layers, k).Some?)
      && (Winner(layers, k).Some? ==>
           && values[k] == LastValue(Assignments(Winner(layers, k).value.document, ""), k)
           && sources[k] == Winner(layers, k).value.name)
  }

  lemma NoLayers()
    ensures LaterLayersWin([], map[], map[])
  {
  }

  lemma OneMoreLayer(layers: seq<Layer>, layer: Layer, values: map<string, Value>, sources: map<string, string>,
                     flat: map<string, Value>)
    requires LaterLayersWin(layers, values, sources) && IsAssigned(flat, Assignments(layer.document, ""))
    ensures LaterLayersWin(layers + [layer], values + flat, sources + map k | k in flat :: layer.name)
  {
    hide Assigns, LastValue, Assignments;
    var all := layers + [layer];
    assert all[|layers|] == layer && all[..|layers|] == layers;
  }

  // ---------------------------------------------------------------- the resolver

  /** What is being resolved leads to everything in `names`. */
  ghost predicate Leads(env: Env, stack: seq<string>, names: set<string>) {
    forall s, n :: s in stack && n in names - env.deferred ==> Reaches(RefGraph(env), s, n)
  }

  /** Every memo entry is what its name resolves to by itself. */
  ghost predicate MemoSound(env: Env, cache: map<string, Value>) {
    forall n | n in cache :: n !in env.deferred && EvalVar(env, n, []) == Ok(cache[n])
  }

  /** Below a stack that leads to a resolvable name, nothing under the name is on the stack. */
  lemma LeadsIsClear(env: Env, n: string, stack: seq<string>)
    requires n !in env.deferred && EvalVar(env, n, []).Ok? && Leads(env, stack, {n})
    ensures Clear(env, {n}, stack)
  {
    forall m | Under(env, n, m) && m in stack ensures false {
      OkIsAcyclic(env, n, [], n);
      assert n in {n} - env.deferred;
      assert Reaches(RefGraph(env), m, n);
      if m != n {
        ReachesTransitive(RefGraph(env), n, m, n);
      }
    }
  }

  /** The value of a name that a stack leads to is led to by the stack with that name. */
  lemma LeadsBelow(env: Env, n: string, stack: seq<string>)
    requires n in env.values && n !in env.deferred && Leads(env, stack, {n})
    ensures Leads(env, stack + [n], Refs(env.values[n]))
  {
    assert n in {n} - env.deferred;
    forall s, r | s in stack + [n] && r in Refs(env.values[n]) - env.deferred ensures Reaches(RefGraph(env), s, r) {
      EdgeReaches(RefGraph(env), n, r);
      if s != n {
        ReachesStep(RefGraph(env), s, n, r);
      }
    }
  }

  lemma {:induction false} ItemRefsAt(items: seq<Value>, i: nat)
    requires i < |items|
    ensures Refs(items[i]) <= ItemRefs(items)
  {
    if i > 0 {
      ItemRefsAt(items[1..], i - 1);
    }
  }

  lemma {:induction false} EntryRefsAt(entries: seq<Entry>, i: nat)
    requires i < |entries|
    ensures Refs(entries[i].value) <= EntryRefs(entries)
  {
    if i > 0 {
      EntryRefsAt(entries[1..], i - 1);
    }
  }

  /** The outcome of a prefix followed by the outcome of the rest. */
  function Prepend<T>(done: seq<T>, rest: Result<seq<T>, Error>): Result<seq<T>, Error> {
    match rest
    case Ok(r) => Ok(done + r)
    case Err(e) => Err(e)
  }

  lemma PrependOnce<T>(done: seq<T>, x: seq<T>, rest: Result<seq<T>, Error>)
    ensures Prepend(done, Prepend(x, rest)) == Prepend(done + x, rest)
  {
    if rest.Ok? {
      assert done + (x + rest.value) == (done + x) + rest.value;
    }
  }

  lemma PrependNothing<T>(done: seq<T>, rest: Result<seq<T>, Error>)
    ensures Prepend([], rest) == rest
    ensures Prepend(done, Ok([])) == Ok(done)
  {
    assert done + [] == done;
    if rest.Ok? {
      assert [] + rest.value == rest.value;
    }
  }

  lemma PrependFails<T>(done: seq<T>, error: Error)
    ensures Prepend(done, Err(error)) == Err(error)
  {
  }

  lemma NoPieces(env: Env, stack: seq<string>)
    ensures EvalPieces(env, Pieces(""), stack) == Ok("")
  {
  }

  lemma ItemsStep(env: Env, items: seq<Value>, i: nat, stack: seq<string>)
    requires i < |items|
    ensures EvalItems(env, items[i..], stack) ==
      match EvalValue(env, items[i], stack)
      case Ok(v) => Prepend([v], EvalItems(env, items[i + 1..], stack))
      case Err(e) => Err(e)
  {
    var rest := items[i..];
    assert rest[0] == items[i] && rest[1..] == items[i + 1..];
  }

  lemma EntriesStep(env: Env, entries: seq<Entry>, i: nat, stack: seq<string>)
    requires i < |entries|
    ensures EvalEntries(env, entries[i..], stack) ==
      match EvalValue(env, entries[i].value, stack)
      case Ok(v) => Prepend([Entry(entries[i].key, v)], EvalEntries(env, entries[i + 1..], stack))
      case Err(e) => Err(e)
  {
    var rest := entries[i..];
    assert rest[0] == entries[i] && rest[1..] == entries[i + 1..];
  }

  /** How far the next piece of `s` reaches, and what it stands for. */
  lemma PiecesStep(env: Env, s: string, stack: seq<string>)
    requires s != ""
    ensures RefAt(s).None? ==>
      EvalPieces(env, Pieces(s), stack) == Prepend([s[0]], EvalPieces(env, Pieces(s[1..]), stack)) &&
      PieceRefs(Pieces(s)) == PieceRefs(Pieces(s[1..]))
    ensures RefAt(s).Some? ==>
      PieceRefs(Pieces(s)) == {RefAt(s).value} + PieceRefs(Pieces(s[|RefAt(s).value| + 3..])) &&
      EvalPieces(env, Pieces(s), stack) ==
        match EvalVar(env, RefAt(s).value, stack)
        case Ok(v) =>
          if IsStructured(v) then Err(Structured(RefAt(s).value))
          else Prepend(Rendered(v), EvalPieces(env, Pieces(s[|RefAt(s).value| + 3..]), stack))
        case Err(e) => Err(e)
  {
    hide EvalVar, RefAt;
    var pieces := Pieces(s);
    PieceRefsSplit(pieces);
    if RefAt(s).Some? {
      assert pieces[1..] == Pieces(s[|RefAt(s).value| + 3..]);
    } else {
      assert pieces[1..] == Pieces(s[1..]);
    }
  }

  // ---------------------------------------------------------------- the names of nested values

  /** `v` stands in the document under `keys`, one for each level. */
  ghost predicate StandsAt(document: Document, keys: seq<string>, v: Value)
    decreases |keys|
  {
    && keys != []
    && (exists i :: 0 <= i < |document| && document[i].key == keys[0]
          && (if |keys| == 1 then document[i].value == v
              else document[i].value.Dict? && StandsAt(document[i].value.entries, keys[1..], v)))
  }

  function Dotted(keys: seq<string>): string {
    if keys == [] then "" else if |keys| == 1 then keys[0] else keys[0] + "." + Dotted(keys[1..])
  }

  lemma {:induction false} AssignmentsHold(document: Document, prefix: string, i: nat)
    requires i < |document|
    ensures var path := Join(prefix, document[i].key);
            && Entry(path, document[i].value) in Assignments(document, prefix)
            && (document[i].value.Dict? ==>
                  forall e :: e in Assignments(document[i].value.entries, path) ==> e in Assignments(document, prefix))
    decreases |document|
  {
    if i > 0 {
      AssignmentsHold(document[1..], prefix, i - 1);
    }
  }

  lemma DotsJoin(prefix: string, key: string, rest: string)
    requires key != ""
    ensures Join(prefix, key) != ""
    ensures Join(prefix, key) + "." + rest ==
        if prefix == "" then key + "." + rest else prefix + "." + (key + "." + rest)
  {
  }

  /** A nested value is known by the keys that lead to it, with dots between them. */
  lemma {:induction false} NestedIsDotted(document: Document, prefix: string, keys: seq<string>, v: Value)
    requires StandsAt(document, keys, v) && forall i :: 0 <= i < |keys| ==> keys[i] != ""
    ensures Entry(if prefix == "" then Dotted(keys) else prefix + "." + Dotted(keys), v)
          in Assignments(document, prefix)
    decreases |keys|
  {
    var i :| 0 <= i < |document| && document[i].key == keys[0]
      && (if |keys| == 1 then document[i].value == v
          else document[i].value.Dict? && StandsAt(document[i].value.entries, keys[1..], v));
    AssignmentsHold(document, prefix, i);
    if |keys| > 1 {
      var path := Join(prefix, keys[0]);
      NestedIsDotted(document[i].value.entries, path, keys[1..], v);
      DotsJoin(prefix, keys[0], Dotted(keys[1..]));
    }
  }

  class VariableResolver {
    var values: map<string, Value>
    var sources: map<string, string>
    var cache: map<string, Value>
    const deferred: set<string>

    ghost function Settings(): Env
      reads this`values
    {
      Env(values, deferred)
    }

    constructor (layers: seq<Layer>, deferred: set<string>)
      ensures LaterLayersWin(layers, values, sources)
      ensures this.deferred == deferred && MemoSound(Settings(), cache)
    {
      hide LaterLayersWin, IsAssigned, EvalVar;
      this.deferred := deferred;
      values, sources, cache := map[], map[], map[];
      new;
      NoLayers();
      assert layers[..0] == [];
      for i := 0 to |layers|
        invariant LaterLayersWin(layers[..i], values, sources)
        invariant cache == map[]
      {
        var flat := Flatten(layers[i].document, "");
        OneMoreLayer(layers[..i], layers[i], values, sources, flat);
        assert layers[..i + 1] == layers[..i] + [layers[i]];
        values := values + flat;
        sources := sources + map k | k in flat :: layers[i].name;
      }
      assert layers[..|layers|] == layers;
    }

    /** `variable`; `stack` holds the names whose values are being resolved, so each of them leads
        to this one. At the top it is empty. */
    method Variable(name: string, stack: seq<string>) returns (r: Resolved)
      requires MemoSound(Settings(), cache) && Leads(Settings(), stack, {name})
      modifies `cache
      ensures MemoSound(Settings(), cache)
      ensures r == EvalVar(Settings(), name, stack)
      decreases Room(Settings(), stack), 0
    {
      ghost var env := Settings();
      if name in cache {
        LeadsIsClear(env, name, stack);
        SameVar(env, name, [], stack);
        return Ok(cache[name]);
      }
      if name in deferred {
        return Ok(Placeholder(name));
      }
      if name in stack {
        return Err(Cycle(stack + [name]));
      }
      if name !in values {
        return Err(Unknown(name));
      }
      LeadsBelow(env, name, stack);
      LessRoom(env, stack, name);
      r := Resolve(values[name], stack + [name]);
      if r.Ok? {
        SameVar(env, name, stack, []);
        cache := cache[name := r.value];
      }
    }

    /** `resolve` */
    method Resolve(v: Value, stack: seq<string>) returns (r: Resolved)
      requires MemoSound(Settings(), cache) && Leads(Settings(), stack, Refs(v))
      modifies `cache
      ensures MemoSound(Settings(), cache)
      ensures r == EvalValue(Settings(), v, stack)
      decreases Room(Settings(), stack), 2, v
    {
      match v
      case Dict(entries) =>
        var t := ResolveEntries(entries, stack);
        return if t.Ok? then Ok(Dict(t.value)) else Err(t.error);
      case List(items) =>
        var t := ResolveItems(items, stack);
        return if t.Ok? then Ok(List(t.value)) else Err(t.error);
      case Scalar(_) =>
        return Ok(v);
      case Text(s) =>
        var whole := WholeRef(s);
        if whole.Some? {
          r := Variable(whole.value, stack);
        } else {
          var t := Substitute(s, stack);
          return if t.Ok? then Ok(Text(t.value)) else Err(t.error);
        }
    }

    method ResolveItems(items: seq<Value>, stack: seq<string>) returns (r: Result<seq<Value>, Error>)
      requires MemoSound(Settings(), cache) && Leads(Settings(), stack, ItemRefs(items))
      modifies `cache
      ensures MemoSound(Settings(), cache)
      ensures r == EvalItems(Settings(), items, stack)
      decreases Room(Settings(), stack), 2, items
    {
      hide MemoSound, EvalValue, Room, Prepend, Refs, ItemRefs;
      var done: seq<Value> := [];
      assert items[0..] == items;
      PrependNothing(done, EvalItems(Settings(), items, stack));
      for i := 0 to |items|
        invariant MemoSound(Settings(), cache) && unchanged(`values)
        invariant EvalItems(Settings(), items, stack) == Prepend(done, EvalItems(Settings(), items[i..], stack))
      {
        ItemRefsAt(items, i);
        ItemsStep(Settings(), items, i, stack);
        var v := Resolve(items[i], stack);
        if v.Err? {
          PrependFails(done, v.error);
          return Err(v.error);
        }
        PrependOnce(done, [v.value], EvalItems(Settings(), items[i + 1..], stack));
        done := done + [v.value];
      }
      assert items[|items|..] == [];
      PrependNothing(done, Ok([]));
      return Ok(done);
    }

    method ResolveEntries(entries: seq<Entry>, stack: seq<string>) returns (r: Result<seq<Entry>, Error>)
      requires MemoSound(Settings(), cache) && Leads(Settings(), stack, EntryRefs(entries))
      modifies `cache
      ensures MemoSound(Settings(), cache)
      ensures r == EvalEntries(Settings(), entries, stack)
      decreases Room(Settings(), stack), 2, entries
    {
      hide MemoSound, EvalValue, Room, Prepend, Refs, EntryRefs;
      var done: seq<Entry> := [];
      assert entries[0..] == entries;
      PrependNothing(done, EvalEntries(Settings(), entries, stack));
      for i := 0 to |entries|
        invariant MemoSound(Settings(), cache) && unchanged(`values)
        invariant EvalEntries(Settings(), entries, stack) == Prepend(done, EvalEntries(Settings(), entries[i..], stack))
      {
        EntryRefsAt(entries, i);
        EntriesStep(Settings(), entries, i, stack);
        var v := Resolve(entries[i].value, stack);
        if v.Err? {
          PrependFails(done, v.error);
          return Err(v.error);
        }
        var entry := Entry(entries[i].key, v.value);
        PrependOnce(done, [entry], EvalEntries(Settings(), entries[i + 1..], stack));
        done := done + [entry];
      }
      assert entries[|entries|..] == [];
      PrependNothing(done, Ok([]));
      return Ok(done);
    }

    /** `REFERENCE.sub(replace, value)` */
    method Substitute(s: string, stack: seq<string>) returns (r: Result<string, Error>)
      requires MemoSound(Settings(), cache) && Leads(Settings(), stack, PieceRefs(Pieces(s)))
      modifies `cache
      ensures MemoSound(Settings(), cache)
      ensures r == EvalPieces(Settings(), Pieces(s), stack)
      decreases Room(Settings(), stack), 1
    {
      hide MemoSound, EvalVar, EvalPieces, Room, Prepend, PieceRefs, Pieces, RefAt;
      var out, rest := "", s;
      PrependNothing(out, EvalPieces(Settings(), Pieces(s), stack));
      while rest != ""
        invariant MemoSound(Settings(), cache) && unchanged(`values)
        invariant PieceRefs(Pieces(rest)) <= PieceRefs(Pieces(s))
        invariant EvalPieces(Settings(), Pieces(s), stack) == Prepend(out, EvalPieces(Settings(), Pieces(rest), stack))
        decreases |rest|
      {
        PiecesStep(Settings(), rest, stack);
        var next := RefAt(rest);
        var text, step := [rest[0]], 1;
        if next.Some? {
          var v := Variable(next.value, stack);
          if v.Err? {
            PrependFails(out, v.error);
            return Err(v.error);
          }
          if IsStructured(v.value) {
            PrependFails(out, Structured(next.value));
            return Err(Structured(next.value));
          }
          text, step := Rendered(v.value), |next.value| + 3;
        }
        PrependOnce(out, text, EvalPieces(Settings(), Pieces(rest[step..]), stack));
        out, rest := out + text, rest[step..];
      }
      PrependNothing(out, Ok([]));
      NoPieces(Settings(), stack);
      return Ok(out);
    }
  }
}
