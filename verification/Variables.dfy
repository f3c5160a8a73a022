/** variables.py `VariableResolver`: memoised resolution of `${name}` references. */
module Variables {
  import opened Wrappers
  import opened Reachability

  // ---------------------------------------------------------------- values and references

  /** A configuration value; a scalar is known by the text it is rendered as. */
  datatype Value =
    | Text(s: string)
    | Scalar(rendered: string)
    | List(items: seq<Value>)
    | Dict(entries: seq<Entry>)

  datatype Entry = Entry(key: string, value: Value)

  datatype Error = Cycle(path: seq<string>) | Unknown(name: string) | Structured(name: string)

  type Resolved = Result<Value, Error>

  predicate IsStructured(v: Value) {
    v.List? || v.Dict?
  }

  predicate NameStart(c: char) {
    'a' <= c <= 'z' || 'A' <= c <= 'Z' || c == '_'
  }

  predicate NameChar(c: char) {
    NameStart(c) || '0' <= c <= '9' || c == '.' || c == '-'
  }

  function NameRun(s: string): (n: nat)
    ensures n <= |s|
  {
    if s != "" && NameChar(s[0]) then 1 + NameRun(s[1..]) else 0
  }

  /** The name of the reference that `s` starts with. */
  function RefAt(s: string): (r: Option<string>)
    ensures r.Some? ==> |r.value| + 3 <= |s|
  {
    if |s| < 4 || s[0] != '$' || s[1] != '{' || !NameStart(s[2]) then None else
    var n := NameRun(s[2..]);
    if n + 2 < |s| && s[n + 2] == '}' then Some(s[2..n + 2]) else None
  }

  /** A text is a sequence of references and of other characters. */
  datatype Piece = Char(c: char) | Ref(name: string)

  function Pieces(s: string): seq<Piece>
    decreases |s|
  {
    if s == "" then [] else
    match RefAt(s)
    case Some(name) => [Ref(name)] + Pieces(s[|name| + 3..])
    case None => [Char(s[0])] + Pieces(s[1..])
  }

  /** `REFERENCE.fullmatch` */
  function WholeRef(s: string): Option<string> {
    var r := RefAt(s);
    if r.Some? && |r.value| + 3 == |s| then r else None
  }

  function PieceRefs(pieces: seq<Piece>): set<string> {
    set i | 0 <= i < |pieces| && pieces[i].Ref? :: pieces[i].name
  }

  /** Every name that a value refers to. */
  function Refs(v: Value): set<string>
    decreases v
  {
    match v
    case Text(s) => if WholeRef(s).Some? then {WholeRef(s).value} else PieceRefs(Pieces(s))
    case Scalar(_) => {}
    case List(items) => ItemRefs(items)
    case Dict(entries) => EntryRefs(entries)
  }

  function ItemRefs(items: seq<Value>): set<string>
    decreases items
  {
    if items == [] then {} else Refs(items[0]) + ItemRefs(items[1..])
  }

  function EntryRefs(entries: seq<Entry>): set<string>
    decreases entries
  {
    if entries == [] then {} else Refs(entries[0].value) + EntryRefs(entries[1..])
  }

  // ---------------------------------------------------------------- resolution without a memo

  /** The flattened layers, and the names left for the host to fill in. */
  datatype Env = Env(values: map<string, Value>, deferred: set<string>)

  function Placeholder(name: string): Value {
    Text("${" + name + "}")
  }

  function Rendered(v: Value): string {
    match v
    case Text(s) => s
    case Scalar(r) => r
    case _ => ""
  }

  ghost function Members(stack: seq<string>): set<string> {
    set x | x in stack
  }

  lemma MembersSnoc(stack: seq<string>, name: string)
    ensures Members(stack + [name]) == Members(stack) + {name}
  {
  }

  /** How many known names are not being resolved yet. */
  ghost function Room(env: Env, stack: seq<string>): nat {
    |env.values.Keys - Members(stack)|
  }

  lemma LessRoom(env: Env, stack: seq<string>, name: string)
    requires name in env.values && name !in stack
    ensures Room(env, stack + [name]) < Room(env, stack)
  {
    MembersSnoc(stack, name);
    assert env.values.Keys - Members(stack) == (env.values.Keys - Members(stack + [name])) + {name};
  }

  ghost function EvalVar(env: Env, name: string, stack: seq<string>): Resolved
    decreases Room(env, stack), 0
  {
    if name in env.deferred then Ok(Placeholder(name))
    else if name in stack then Err(Cycle(stack + [name]))
    else if name !in env.values then Err(Unknown(name))
    else
      LessRoom(env, stack, name);
      EvalValue(env, env.values[name], stack + [name])
  }

  ghost function EvalValue(env: Env, v: Value, stack: seq<string>): Resolved
    decreases Room(env, stack), 2, v
  {
    match v
    case Scalar(_) => Ok(v)
    case Text(s) =>
      if WholeRef(s).Some? then EvalVar(env, WholeRef(s).value, stack)
      else var t :- EvalPieces(env, Pieces(s), stack); Ok(Text(t))
    case List(items) => var r :- EvalItems(env, items, stack); Ok(List(r))
    case Dict(entries) => var r :- EvalEntries(env, entries, stack); Ok(Dict(r))
  }

  ghost function EvalPieces(env: Env, pieces: seq<Piece>, stack: seq<string>): Result<string, Error>
    decreases Room(env, stack), 1, pieces
  {
    if pieces == [] then Ok("") else
    match pieces[0]
    case Char(c) => var rest :- EvalPieces(env, pieces[1..], stack); Ok([c] + rest)
    case Ref(name) =>
      var v :- EvalVar(env, name, stack);
      if IsStructured(v) then Err(Structured(name)) else
      var rest :- EvalPieces(env, pieces[1..], stack);
      Ok(Rendered(v) + rest)
  }

  ghost function EvalItems(env: Env, items: seq<Value>, stack: seq<string>): (r: Result<seq<Value>, Error>)
    decreases Room(env, stack), 2, items
  {
    if items == [] then Ok([]) else
    var v :- EvalValue(env, items[0], stack);
    var rest :- EvalItems(env, items[1..], stack);
    Ok([v] + rest)
  }

  ghost function EvalEntries(env: Env, entries: seq<Entry>, stack: seq<string>): (r: Result<seq<Entry>, Error>)
    decreases Room(env, stack), 2, entries
  {
    if entries == [] then Ok([]) else
    var v :- EvalValue(env, entries[0].value, stack);
    var rest :- EvalEntries(env, entries[1..], stack);
    Ok([Entry(entries[0].key, v)] + rest)
  }

  // ---------------------------------------------------------------- the reference graph

  /** Which names the value of a name refers to, deferred names aside. */
  function RefGraph(env: Env): Graph<string> {
    map n | n in env.values.Keys - env.deferred :: Refs(env.values[n]) - env.deferred
  }

  /** `m` is `n` or lies on a chain of references from it. */
  ghost predicate Under(env: Env, n: string, m: string) {
    m == n || Reaches(RefGraph(env), n, m)
  }

  /** A value that resolves has only references that resolve. */
  lemma {:induction false} OkRefs(env: Env, v: Value, stack: seq<string>, m: string)
    requires EvalValue(env, v, stack).Ok? && m in Refs(v)
    ensures EvalVar(env, m, stack).Ok?
    decreases v
  {
    match v
    case Text(s) => if WholeRef(s).None? { OkPieceRefs(env, Pieces(s), stack, m); }
    case Scalar(_) =>
    case List(items) => OkItemRefs(env, items, stack, m);
    case Dict(entries) => OkEntryRefs(env, entries, stack, m);
  }

  lemma {:induction false} OkPieceRefs(env: Env, pieces: seq<Piece>, stack: seq<string>, m: string)
    requires EvalPieces(env, pieces, stack).Ok? && m in PieceRefs(pieces)
    ensures EvalVar(env, m, stack).Ok?
    decreases pieces
  {
    if pieces[0] != Ref(m) {
      var i :| 0 <= i < |pieces| && pieces[i].Ref? && pieces[i].name == m;
      assert pieces[1..][i - 1] == pieces[i];
      OkPieceRefs(env, pieces[1..], stack, m);
    }
  }

  lemma {:induction false} OkItemRefs(env: Env, items: seq<Value>, stack: seq<string>, m: string)
    requires EvalItems(env, items, stack).Ok? && m in ItemRefs(items)
    ensures EvalVar(env, m, stack).Ok?
    decreases items
  {
    if m in Refs(items[0]) {
      OkRefs(env, items[0], stack, m);
    } else {
      OkItemRefs(env, items[1..], stack, m);
    }
  }

  lemma {:induction false} OkEntryRefs(env: Env, entries: seq<Entry>, stack: seq<string>, m: string)
    requires EvalEntries(env, entries, stack).Ok? && m in EntryRefs(entries)
    ensures EvalVar(env, m, stack).Ok?
    decreases entries
  {
    if m in Refs(entries[0].value) {
      OkRefs(env, entries[0].value, stack, m);
    } else {
      OkEntryRefs(env, entries[1..], stack, m);
    }
  }

  /** Along a chain of references from a name that resolves, every name resolves, and no name
      repeats. */
  lemma {:induction false} OkAlongPath(env: Env, path: seq<string>, stack: seq<string>, i: nat)
    requires IsPath(RefGraph(env), path) && i < |path| && path[0] !in env.deferred
    requires EvalVar(env, path[0], stack).Ok?
    ensures EvalVar(env, path[i], stack + path[..i]).Ok? && path[i] !in env.deferred
    ensures path[i] in env.values && path[i] !in stack + path[..i]
    decreases i
  {
    if i == 0 {
      assert stack + path[..0] == stack;
    } else {
      OkAlongPath(env, path, stack, i - 1);
      var n := path[i - 1];
      assert path[i - 1 + 1] in Successors(RefGraph(env), n);
      OkRefs(env, env.values[n], stack + path[..i - 1] + [n], path[i]);
      assert stack + path[..i - 1] + [n] == stack + path[..i];
    }
  }

  /** What resolves is known, acyclic, and reaches only such names. */
  lemma OkIsAcyclic(env: Env, n: string, stack: seq<string>, m: string)
    requires n !in env.deferred && EvalVar(env, n, stack).Ok? && Under(env, n, m)
    ensures m in env.values && m !in env.deferred && m !in stack && !Reaches(RefGraph(env), m, m)
  {
    var g := RefGraph(env);
    var path := if m == n then [n] else
      var p :| |p| >= 2 && p[0] == n && p[|p| - 1] == m && IsPath(g, p); p;
    OkAlongPath(env, path, stack, |path| - 1);
    if Reaches(g, m, m) {
      var loop :| |loop| >= 2 && loop[0] == m && loop[|loop| - 1] == m && IsPath(g, loop);
      var before := stack + path[..|path| - 1];
      assert loop[..|loop| - 1][0] == m;
      assert m in before + loop[..|loop| - 1];
      OkAlongPath(env, loop, before, |loop| - 1);
    }
  }

  // ---------------------------------------------------------------- the stack only finds cycles

  /** No name that `names` lead to is being resolved. */
  ghost predicate Clear(env: Env, names: set<string>, stack: seq<string>) {
    forall n, m :: n in names - env.deferred && Under(env, n, m) ==> m !in stack
  }

  /** One step along the reference graph. */
  lemma UnderRef(env: Env, n: string, r: string, m: string)
    requires n in env.values && n !in env.deferred
    requires r in Refs(env.values[n]) - env.deferred && Under(env, r, m)
    ensures Reaches(RefGraph(env), n, m)
  {
    EdgeReaches(RefGraph(env), n, r);
    if m != r {
      ReachesFirst(RefGraph(env), n, r, m);
    }
  }

  /** Where `n` is acyclic and clear of the stack, its references are clear of the longer stack. */
  lemma ClearBelow(env: Env, n: string, stack: seq<string>)
    requires n in env.values && n !in env.deferred && Clear(env, {n}, stack)
    requires !Reaches(RefGraph(env), n, n)
    ensures Clear(env, Refs(env.values[n]), stack + [n]) && n !in stack
  {
    assert Under(env, n, n);
    forall r, m | r in Refs(env.values[n]) - env.deferred && Under(env, r, m) ensures m !in stack + [n] {
      UnderRef(env, n, r, m);
      assert Under(env, n, m);
    }
  }

  /** A name that resolves below one stack resolves to the same value below every stack that holds
      none of the names it leads to. */
  lemma {:induction false} SameVar(env: Env, name: string, stack: seq<string>, other: seq<string>)
    requires EvalVar(env, name, stack).Ok? && Clear(env, {name}, other)
    ensures EvalVar(env, name, other) == EvalVar(env, name, stack)
    decreases Room(env, stack), 0
  {
    if name !in env.deferred {
      assert Under(env, name, name);
      OkIsAcyclic(env, name, stack, name);
      ClearBelow(env, name, other);
      LessRoom(env, stack, name);
      SameValue(env, env.values[name], stack + [name], other + [name]);
    }
  }

  lemma {:induction false} SameValue(env: Env, v: Value, stack: seq<string>, other: seq<string>)
    requires EvalValue(env, v, stack).Ok? && Clear(env, Refs(v), other)
    ensures EvalValue(env, v, other) == EvalValue(env, v, stack)
    decreases Room(env, stack), 2, v
  {
    match v
    case Text(s) =>
      if WholeRef(s).Some? {
        SameVar(env, WholeRef(s).value, stack, other);
      } else {
        SamePieces(env, Pieces(s), stack, other);
      }
    case Scalar(_) =>
    case List(items) => SameItems(env, items, stack, other);
    case Dict(entries) => SameEntries(env, entries, stack, other);
  }

  lemma {:induction false} SamePieces(env: Env, pieces: seq<Piece>, stack: seq<string>, other: seq<string>)
    requires EvalPieces(env, pieces, stack).Ok? && Clear(env, PieceRefs(pieces), other)
    ensures EvalPieces(env, pieces, other) == EvalPieces(env, pieces, stack)
    decreases Room(env, stack), 1, pieces
  {
    if pieces != [] {
      PieceRefsSplit(pieces);
      if pieces[0].Ref? {
        SameVar(env, pieces[0].name, stack, other);
      }
      SamePieces(env, pieces[1..], stack, other);
    }
  }

  lemma PieceRefsSplit(pieces: seq<Piece>)
    requires pieces != []
    ensures PieceRefs(pieces) == (if pieces[0].Ref? then {pieces[0].name} else {}) + PieceRefs(pieces[1..])
  {
    forall n | n in PieceRefs(pieces[1..]) ensures n in PieceRefs(pieces) {
      var i :| 0 <= i < |pieces[1..]| && pieces[1..][i].Ref? && pieces[1..][i].name == n;
      assert pieces[i + 1].Ref? && pieces[i + 1].name == n;
    }
    forall n | n in PieceRefs(pieces) && pieces[0] != Ref(n) ensures n in PieceRefs(pieces[1..]) {
      var i :| 0 <= i < |pieces| && pieces[i].Ref? && pieces[i].name == n;
      assert pieces[1..][i - 1] == pieces[i];
    }
  }

  lemma {:induction false} SameItems(env: Env, items: seq<Value>, stack: seq<string>, other: seq<string>)
    requires EvalItems(env, items, stack).Ok? && Clear(env, ItemRefs(items), other)
    ensures EvalItems(env, items, other) == EvalItems(env, items, stack)
    decreases Room(env, stack), 2, items
  {
    if items != [] {
      SameValue(env, items[0], stack, other);
      SameItems(env, items[1..], stack, other);
    }
  }

  lemma {:induction false} SameEntries(env: Env, entries: seq<Entry>, stack: seq<string>, other: seq<string>)
    requires EvalEntries(env, entries, stack).Ok? && Clear(env, EntryRefs(entries), other)
    ensures EvalEntries(env, entries, other) == EvalEntries(env, entries, stack)
    decreases Room(env, stack), 2, entries
  {
    if entries != [] {
      SameValue(env, entries[0].value, stack, other);
      SameEntries(env, entries[1..], stack, other);
    }
  }

  // ---------------------------------------------------------------- exactly when a value resolves

  /** The names that `v` embeds in longer text, where only their text can stand. */
  function Embedded(v: Value): set<string>
    decreases v
  {
    match v
    case Text(s) => if WholeRef(s).Some? then {} else PieceRefs(Pieces(s))
    case Scalar(_) => {}
    case List(items) => EmbeddedItems(items)
    case Dict(entries) => EmbeddedEntries(entries)
  }

  function EmbeddedItems(items: seq<Value>): set<string>
    decreases items
  {
    if items == [] then {} else Embedded(items[0]) + EmbeddedItems(items[1..])
  }

  function EmbeddedEntries(entries: seq<Entry>): set<string>
    decreases entries
  {
    if entries == [] then {} else Embedded(entries[0].value) + EmbeddedEntries(entries[1..])
  }

  /** The name that the value of `n` is nothing but a reference to. */
  function Alias(env: Env, n: string): set<string> {
    if n !in env.values || n in env.deferred then {} else
    match env.values[n]
    case Text(s) => if WholeRef(s).Some? then {WholeRef(s).value} - env.deferred else {}
    case _ => {}
  }

  function AliasGraph(env: Env): Graph<string> {
    map n | n in env.values :: Alias(env, n)
  }

  /** The chain of aliases from `n` ends at a list or at a dictionary. */
  ghost predicate Denotes(env: Env, n: string, m: string) {
    m in env.values && m !in env.deferred && IsStructured(env.values[m]) && (m == n || Reaches(AliasGraph(env), n, m))
  }

  ghost predicate DenotesStructure(env: Env, n: string) {
    exists m :: Denotes(env, n, m)
  }

  /** Nothing structured is embedded in text. */
  ghost predicate Plain(env: Env, names: set<string>) {
    forall e :: e in names ==> !DenotesStructure(env, e)
  }

  /** A name that can be resolved as far as its own value goes. */
  ghost predicate Fit(env: Env, m: string) {
    m in env.values && !Reaches(RefGraph(env), m, m) && Plain(env, Embedded(env.values[m]))
  }

  /** Everything that `names` lead to is fit. */
  ghost predicate AllFit(env: Env, names: set<string>) {
    forall n, m :: n in names - env.deferred && Under(env, n, m) ==> Fit(env, m)
  }

  lemma NothingDenoted(env: Env, n: string, m: string)
    requires Alias(env, n) == {} && Denotes(env, n, m)
    ensures m == n
  {
    if m != n {
      ReachesBySuccessor(AliasGraph(env), n, m);
    }
  }

  /** An alias denotes what the name behind it denotes. */
  lemma AliasDenotes(env: Env, n: string, r: string)
    requires n in env.values && n !in env.deferred && Alias(env, n) == {r}
    ensures DenotesStructure(env, n) <==> DenotesStructure(env, r)
  {
    var g := AliasGraph(env);
    if DenotesStructure(env, n) {
      var m :| Denotes(env, n, m);
      var path :| |path| >= 2 && path[0] == n && path[|path| - 1] == m && IsPath(g, path);
      assert path[0 + 1] in Successors(g, n);
      if |path| > 2 {
        var rest := path[1..];
        forall i | 0 <= i < |rest| - 1 ensures rest[i + 1] in Successors(g, rest[i]) {
          assert path[i + 1 + 1] in Successors(g, path[i + 1]);
        }
        assert IsPath(g, rest) && rest[0] == r && rest[|rest| - 1] == m;
      }
      assert Denotes(env, r, m);
    }
    if DenotesStructure(env, r) {
      var m :| Denotes(env, r, m);
      EdgeReaches(g, n, r);
      if m != r {
        ReachesFirst(g, n, r, m);
      }
      assert Denotes(env, n, m);
    }
  }

  /** A name resolves to a structured value exactly when its aliases end at one. */
  lemma {:induction false} StructureIsDenoted(env: Env, name: string, stack: seq<string>)
    requires EvalVar(env, name, stack).Ok?
    ensures IsStructured(EvalVar(env, name, stack).value) <==> DenotesStructure(env, name)
    decreases Room(env, stack)
  {
    if name in env.deferred {
      forall m | Denotes(env, name, m) ensures false {
        NothingDenoted(env, name, m);
      }
    } else if IsStructured(env.values[name]) {
      assert Denotes(env, name, name);
    } else if Alias(env, name) != {} {
      var r := WholeRef(env.values[name].s).value;
      AliasDenotes(env, name, r);
      LessRoom(env, stack, name);
      assert EvalVar(env, name, stack) == EvalValue(env, env.values[name], stack + [name]);
      StructureIsDenoted(env, r, stack + [name]);
    } else {
      assert EvalVar(env, name, stack) == EvalValue(env, env.values[name], stack + [name]);
      if env.values[name].Text? && WholeRef(env.values[name].s).Some? {
        var r := WholeRef(env.values[name].s).value;
        assert r !in env.deferred ==> r in Alias(env, name);
      }
      forall m | Denotes(env, name, m) ensures false {
        NothingDenoted(env, name, m);
      }
    }
  }

  // ---- a value that resolves

  lemma {:induction false} OkPlain(env: Env, v: Value, stack: seq<string>)
    requires EvalValue(env, v, stack).Ok?
    ensures Plain(env, Embedded(v))
    decreases v
  {
    match v
    case Text(s) => if WholeRef(s).None? { OkPlainPieces(env, Pieces(s), stack); }
    case Scalar(_) =>
    case List(items) => OkPlainItems(env, items, stack);
    case Dict(entries) => OkPlainEntries(env, entries, stack);
  }

  lemma {:induction false} OkPlainPieces(env: Env, pieces: seq<Piece>, stack: seq<string>)
    requires EvalPieces(env, pieces, stack).Ok?
    ensures Plain(env, PieceRefs(pieces))
    decreases pieces
  {
    if pieces != [] {
      PieceRefsSplit(pieces);
      if pieces[0].Ref? {
        StructureIsDenoted(env, pieces[0].name, stack);
      }
      OkPlainPieces(env, pieces[1..], stack);
    }
  }

  lemma {:induction false} OkPlainItems(env: Env, items: seq<Value>, stack: seq<string>)
    requires EvalItems(env, items, stack).Ok?
    ensures Plain(env, EmbeddedItems(items))
    decreases items
  {
    if items != [] {
      OkPlain(env, items[0], stack);
      OkPlainItems(env, items[1..], stack);
    }
  }

  lemma {:induction false} OkPlainEntries(env: Env, entries: seq<Entry>, stack: seq<string>)
    requires EvalEntries(env, entries, stack).Ok?
    ensures Plain(env, EmbeddedEntries(entries))
    decreases entries
  {
    if entries != [] {
      OkPlain(env, entries[0].value, stack);
      OkPlainEntries(env, entries[1..], stack);
    }
  }

  /** Everything that a resolved name leads to is fit. */
  lemma OkIsFit(env: Env, n: string, stack: seq<string>, m: string)
    requires n !in env.deferred && EvalVar(env, n, stack).Ok? && Under(env, n, m)
    ensures Fit(env, m)
  {
    OkIsAcyclic(env, n, stack, m);
    var g := RefGraph(env);
    var path := if m == n then [n] else
      var p :| |p| >= 2 && p[0] == n && p[|p| - 1] == m && IsPath(g, p); p;
    OkAlongPath(env, path, stack, |path| - 1);
    OkPlain(env, env.values[m], stack + path[..|path| - 1] + [m]);
  }

  // ---- a value all of whose names are fit

  lemma {:induction false} FitVar(env: Env, name: string, stack: seq<string>)
    requires AllFit(env, {name}) && Clear(env, {name}, stack)
    ensures EvalVar(env, name, stack).Ok?
    decreases Room(env, stack), 0
  {
    if name !in env.deferred {
      assert Under(env, name, name) && Fit(env, name);
      ClearBelow(env, name, stack);
      LessRoom(env, stack, name);
      forall r, m | r in Refs(env.values[name]) - env.deferred && Under(env, r, m) ensures Fit(env, m) {
        UnderRef(env, name, r, m);
        assert Under(env, name, m);
      }
      FitValue(env, env.values[name], stack + [name]);
    }
  }

  lemma {:induction false} FitValue(env: Env, v: Value, stack: seq<string>)
    requires AllFit(env, Refs(v)) && Clear(env, Refs(v), stack) && Plain(env, Embedded(v))
    ensures EvalValue(env, v, stack).Ok?
    decreases Room(env, stack), 2, v
  {
    match v
    case Text(s) =>
      if WholeRef(s).Some? {
        FitVar(env, WholeRef(s).value, stack);
      } else {
        FitPieces(env, Pieces(s), stack);
      }
    case Scalar(_) =>
    case List(items) => FitItems(env, items, stack);
    case Dict(entries) => FitEntries(env, entries, stack);
  }

  lemma {:induction false} FitPieces(env: Env, pieces: seq<Piece>, stack: seq<string>)
    requires AllFit(env, PieceRefs(pieces)) && Clear(env, PieceRefs(pieces), stack)
    requires Plain(env, PieceRefs(pieces))
    ensures EvalPieces(env, pieces, stack).Ok?
    decreases Room(env, stack), 1, pieces
  {
    if pieces != [] {
      PieceRefsSplit(pieces);
      if pieces[0].Ref? {
        FitVar(env, pieces[0].name, stack);
        StructureIsDenoted(env, pieces[0].name, stack);
      }
      FitPieces(env, pieces[1..], stack);
    }
  }

  lemma {:induction false} FitItems(env: Env, items: seq<Value>, stack: seq<string>)
    requires AllFit(env, ItemRefs(items)) && Clear(env, ItemRefs(items), stack)
    requires Plain(env, EmbeddedItems(items))
    ensures EvalItems(env, items, stack).Ok?
    decreases Room(env, stack), 2, items
  {
    if items != [] {
      FitValue(env, items[0], stack);
      FitItems(env, items[1..], stack);
    }
  }

  lemma {:induction false} FitEntries(env: Env, entries: seq<Entry>, stack: seq<string>)
    requires AllFit(env, EntryRefs(entries)) && Clear(env, EntryRefs(entries), stack)
    requires Plain(env, EmbeddedEntries(entries))
    ensures EvalEntries(env, entries, stack).Ok?
    decreases Room(env, stack), 2, entries
  {
    if entries != [] {
      FitValue(env, entries[0].value, stack);
      FitEntries(env, entries[1..], stack);
    }
  }

  /** A value resolves exactly when every name that it refers to, directly or not, is known and not
      on a cycle of references, and nothing structured is embedded in text, neither in the value
      nor in the value of such a name. */
  lemma ResolvesExactlyWhen(env: Env, v: Value)
    ensures EvalValue(env, v, []).Ok? <==> AllFit(env, Refs(v)) && Plain(env, Embedded(v))
  {
    if EvalValue(env, v, []).Ok? {
      OkPlain(env, v, []);
      forall n, m | n in Refs(v) - env.deferred && Under(env, n, m) ensures Fit(env, m) {
        OkRefs(env, v, [], n);
        OkIsFit(env, n, [], m);
      }
    }
    if AllFit(env, Refs(v)) && Plain(env, Embedded(v)) {
      FitValue(env, v, []);
    }
  }
}
