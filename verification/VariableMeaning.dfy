/** What resolution in variables.py makes of a value, and what its errors say, without following its
    recursion. */
module VariableMeaning {
  import opened Collections
  import opened Reachability
  import opened Variables
  import opened Wrappers

  // ---------------------------------------------------------------- the references in a text

  /** What `REFERENCE` matches between its braces. */
  predicate IsName(n: string) {
    n != "" && NameStart(n[0]) && forall i :: 0 <= i < |n| ==> NameChar(n[i])
  }

  lemma {:induction false} NameRunIs(t: string, k: nat)
    requires k <= |t| && (forall i :: 0 <= i < k ==> NameChar(t[i])) && (k < |t| ==> !NameChar(t[k]))
    ensures NameRun(t) == k
  {
    if k > 0 {
      NameRunIs(t[1..], k - 1);
    }
  }

  lemma {:induction false} NameRunChars(t: string)
    ensures forall i :: 0 <= i < NameRun(t) ==> NameChar(t[i])
  {
    if t != "" && NameChar(t[0]) {
      NameRunChars(t[1..]);
      forall i | 0 <= i < NameRun(t) ensures NameChar(t[i]) {
        assert i > 0 ==> t[i] == t[1..][i - 1];
      }
    }
  }

  /** A reference starts where the text goes on with a name between `${` and `}`. */
  lemma RefAtIs(s: string, n: string)
    ensures RefAt(s) == Some(n) <==> IsName(n) && "${" + n + "}" <= s
  {
    if RefAt(s).Some? {
      var k := NameRun(s[2..]);
      NameRunChars(s[2..]);
      assert s[2..k + 2] == s[2..][..k];
      assert "${" + s[2..k + 2] + "}" <= s;
    }
    if IsName(n) && "${" + n + "}" <= s {
      var whole := "${" + n + "}";
      assert forall i :: 0 <= i < |n| ==> s[2..][i] == whole[i + 2];
      assert s[|n| + 2] == whole[|n| + 2] == '}';
      NameRunIs(s[2..], |n|);
      assert s[2..|n| + 2] == n;
    }
  }

  /** A text is nothing but a reference exactly if it is one from end to end. */
  lemma WholeRefIs(s: string, n: string)
    ensures WholeRef(s) == Some(n) <==> IsName(n) && s == "${" + n + "}"
  {
    RefAtIs(s, n);
    if WholeRef(s) == Some(n) {
      assert s == s[..|n| + 3];
    }
  }

  function Spelled(p: Piece): string {
    match p
    case Char(c) => [c]
    case Ref(n) => "${" + n + "}"
  }

  function SpelledAll(pieces: seq<Piece>): string {
    if pieces == [] then "" else Spelled(pieces[0]) + SpelledAll(pieces[1..])
  }

  lemma FirstPiece(s: string)
    requires s != ""
    ensures var rest := match RefAt(s) case Some(n) => s[|n| + 3..] case None => s[1..];
            && Pieces(s) == [match RefAt(s) case Some(n) => Ref(n) case None => Char(s[0])] + Pieces(rest)
            && |rest| < |s| && s == Spelled(Pieces(s)[0]) + rest
  {
    if RefAt(s).Some? {
      var n := RefAt(s).value;
      RefAtIs(s, n);
      assert s == "${" + n + "}" + s[|n| + 3..];
    }
  }

  /** The pieces of a text spell it out, and each is a reference exactly where one starts. */
  lemma {:induction false} PiecesSpell(s: string, k: nat)
    ensures SpelledAll(Pieces(s)) == s
    ensures k < |Pieces(s)| ==>
              var rest := SpelledAll(Pieces(s)[k..]);
              rest != "" && Pieces(s)[k] == match RefAt(rest) case Some(n) => Ref(n) case None => Char(rest[0])
    decreases |s|
  {
    hide RefAt, Spelled, Pieces;
    if s == "" {
      NoPiece();
    } else {
      var pieces := Pieces(s);
      var next := match RefAt(s) case Some(n) => s[|n| + 3..] case None => s[1..];
      FirstPiece(s);
      assert pieces[1..] == Pieces(next);
      PiecesSpell(next, if k > 0 then k - 1 else 0);
      if k == 0 {
        assert pieces[0..] == pieces;
      } else {
        assert k < |pieces| ==> pieces[k..] == Pieces(next)[k - 1..];
      }
    }
  }

  lemma NoPiece()
    ensures Pieces("") == []
  {
  }

  // ---------------------------------------------------------------- the value

  ghost predicate Resolves(env: Env, n: string, x: Value) {
    EvalVar(env, n, []) == Ok(x)
  }

  /** The text that takes the place of a piece: itself, or the value of the variable it names. */
  ghost predicate StandsFor(env: Env, p: Piece, t: string) {
    match p
    case Char(c) => t == [c]
    case Ref(n) => Resolves(env, n, Text(t)) || Resolves(env, n, Scalar(t))
  }

  ghost predicate AreTexts(env: Env, pieces: seq<Piece>, parts: seq<string>) {
    |parts| == |pieces| && forall i :: 0 <= i < |pieces| ==> StandsFor(env, pieces[i], parts[i])
  }

  /** `r` is `v` with the value of its variable in the place of each reference. */
  ghost predicate IsFilledIn(env: Env, v: Value, r: Value)
    decreases v
  {
    match v
    case Scalar(_) => r == v
    case Text(s) =>
      if WholeRef(s).Some? then Resolves(env, WholeRef(s).value, r)
      else r.Text? && exists parts :: AreTexts(env, Pieces(s), parts) && r.s == Concat(parts)
    case List(items) =>
      r.List? && |r.items| == |items| && forall i :: 0 <= i < |items| ==> IsFilledIn(env, items[i], r.items[i])
    case Dict(entries) =>
      && r.Dict? && |r.entries| == |entries|
      && forall i :: 0 <= i < |entries| ==>
           r.entries[i].key == entries[i].key && IsFilledIn(env, entries[i].value, r.entries[i].value)
  }

  lemma AtTop(env: Env, n: string, stack: seq<string>)
    requires EvalVar(env, n, stack).Ok?
    ensures Resolves(env, n, EvalVar(env, n, stack).value)
  {
    SameVar(env, n, stack, []);
  }

  lemma {:induction false} PiecesAreFilledIn(env: Env, pieces: seq<Piece>, stack: seq<string>)
    returns (parts: seq<string>)
    requires EvalPieces(env, pieces, stack).Ok?
    ensures AreTexts(env, pieces, parts) && EvalPieces(env, pieces, stack).value == Concat(parts)
    decreases pieces
  {
    hide EvalVar;
    if pieces == [] {
      parts := [];
    } else {
      var rest := PiecesAreFilledIn(env, pieces[1..], stack);
      var first := match pieces[0] case Char(c) => [c] case Ref(n) => Rendered(EvalVar(env, n, stack).value);
      if pieces[0].Ref? {
        AtTop(env, pieces[0].name, stack);
      }
      parts := [first] + rest;
      ConcatAppend([first], rest);
      ConcatOne(first);
      forall i | 0 <= i < |pieces| ensures StandsFor(env, pieces[i], parts[i]) {
        assert i > 0 ==> StandsFor(env, pieces[1..][i - 1], rest[i - 1]);
      }
    }
  }

  /** What a value resolves to is that value, filled in. */
  lemma {:induction false} ValueIsFilledIn(env: Env, v: Value, stack: seq<string>)
    requires EvalValue(env, v, stack).Ok?
    ensures IsFilledIn(env, v, EvalValue(env, v, stack).value)
    decreases v
  {
    hide EvalVar;
    match v
    case Scalar(_) =>
    case Text(s) =>
      if WholeRef(s).Some? {
        AtTop(env, WholeRef(s).value, stack);
      } else {
        var parts := PiecesAreFilledIn(env, Pieces(s), stack);
      }
    case List(items) => ItemsAreFilledIn(env, items, stack);
    case Dict(entries) => EntriesAreFilledIn(env, entries, stack);
  }

  lemma {:induction false} ItemsAreFilledIn(env: Env, items: seq<Value>, stack: seq<string>)
    requires EvalItems(env, items, stack).Ok?
    ensures var r := EvalItems(env, items, stack).value;
            |r| == |items| && forall i :: 0 <= i < |items| ==> IsFilledIn(env, items[i], r[i])
    decreases items
  {
    hide EvalVar, IsFilledIn;
    if items != [] {
      var r := EvalItems(env, items, stack).value;
      ValueIsFilledIn(env, items[0], stack);
      ItemsAreFilledIn(env, items[1..], stack);
      assert r[1..] == EvalItems(env, items[1..], stack).value;
      forall i | 0 <= i < |items| ensures IsFilledIn(env, items[i], r[i]) {
        assert i > 0 ==> items[i] == items[1..][i - 1] && r[i] == r[1..][i - 1];
      }
    }
  }

  lemma {:induction false} EntriesAreFilledIn(env: Env, entries: seq<Entry>, stack: seq<string>)
    requires EvalEntries(env, entries, stack).Ok?
    ensures var r := EvalEntries(env, entries, stack).value;
            && |r| == |entries|
            && forall i :: 0 <= i < |entries| ==>
                 r[i].key == entries[i].key && IsFilledIn(env, entries[i].value, r[i].value)
    decreases entries
  {
    hide EvalVar, IsFilledIn;
    if entries != [] {
      var r := EvalEntries(env, entries, stack).value;
      ValueIsFilledIn(env, entries[0].value, stack);
      EntriesAreFilledIn(env, entries[1..], stack);
      assert r[1..] == EvalEntries(env, entries[1..], stack).value;
      forall i | 0 <= i < |entries|
        ensures r[i].key == entries[i].key && IsFilledIn(env, entries[i].value, r[i].value)
      {
        assert i > 0 ==> entries[i] == entries[1..][i - 1] && r[i] == r[1..][i - 1];
      }
    }
  }

  /** A variable has the value of its last assignment, filled in; one that the host fills in later stays a
      reference. */
  lemma VariableIsFilledIn(env: Env, n: string, x: Value)
    requires Resolves(env, n, x)
    ensures n in env.deferred ==> x == Text("${" + n + "}")
    ensures n !in env.deferred ==> n in env.values && IsFilledIn(env, env.values[n], x)
  {
    if n !in env.deferred {
      assert EvalVar(env, n, []) == EvalValue(env, env.values[n], [] + [n]);
      ValueIsFilledIn(env, env.values[n], [] + [n]);
    }
  }

  // ---------------------------------------------------------------- the errors

  /** The error is one that `names`, found below `stack`, lead to: a chain of references that comes back to
      a name on it, an unknown name, or a structure inside a text. */
  ghost predicate IsReal(env: Env, names: set<string>, stack: seq<string>, e: Error) {
    match e
    case Cycle(path) =>
      && stack < path && path[|stack|] in names && path[|path| - 1] in path[..|path| - 1]
      && IsPath(RefGraph(env), path[|stack|..]) && forall i :: |stack| <= i < |path| ==> path[i] !in env.deferred
    case Unknown(m) => m !in env.values && m !in env.deferred && exists n :: n in names && Under(env, n, m)
    case Structured(m) => m !in env.deferred && DenotesStructure(env, m) && exists n :: n in names && Under(env, n, m)
  }

  lemma RealForMore(env: Env, names: set<string>, more: set<string>, stack: seq<string>, e: Error)
    requires IsReal(env, names, stack, e) && names <= more
    ensures IsReal(env, more, stack, e)
  {
  }

  lemma {:induction false} VariableErrorIsReal(env: Env, name: string, stack: seq<string>)
    requires EvalVar(env, name, stack).Err?
    ensures IsReal(env, {name}, stack, EvalVar(env, name, stack).error)
    decreases Room(env, stack), 0
  {
    var e := EvalVar(env, name, stack).error;
    if name in stack {
      assert (stack + [name])[|stack|..] == [name];
      assert (stack + [name])[..|stack|] == stack;
    } else if name !in env.values {
      assert Under(env, name, name);
    } else {
      LessRoom(env, stack, name);
      ValueErrorIsReal(env, env.values[name], stack + [name]);
      RealAbove(env, name, stack, e);
    }
  }

  lemma RealAbove(env: Env, name: string, stack: seq<string>, e: Error)
    requires name in env.values && name !in env.deferred && IsReal(env, Refs(env.values[name]), stack + [name], e)
    ensures IsReal(env, {name}, stack, e)
  {
    match e
    case Cycle(path) =>
      var n := |stack|;
      assert path[n] == (stack + [name])[n] == name;
      var below := path[n + 1..];
      assert path[n..] == [name] + below;
      forall i | 0 <= i < |path[n..]| - 1 ensures path[n..][i + 1] in Successors(RefGraph(env), path[n..][i]) {
        if i > 0 {
          assert below[i - 1 + 1] in Successors(RefGraph(env), below[i - 1]);
        }
      }
      assert stack < path;
    case Unknown(m) => NamedBelow(env, name, m);
    case Structured(m) => NamedBelow(env, name, m);
  }

  lemma NamedBelow(env: Env, name: string, m: string)
    requires name in env.values && name !in env.deferred && m !in env.deferred
    requires exists n :: n in Refs(env.values[name]) && Under(env, n, m)
    ensures Under(env, name, m)
  {
    var n :| n in Refs(env.values[name]) && Under(env, n, m);
    if n in env.deferred {
      ReachesBySuccessor(RefGraph(env), n, m);
    }
    UnderRef(env, name, n, m);
  }

  /** Every error that resolution reports is real. */
  lemma {:induction false} ValueErrorIsReal(env: Env, v: Value, stack: seq<string>)
    requires EvalValue(env, v, stack).Err?
    ensures IsReal(env, Refs(v), stack, EvalValue(env, v, stack).error)
    decreases Room(env, stack), 2, v
  {
    hide EvalVar, IsReal, Room;
    match v
    case Scalar(_) =>
    case Text(s) =>
      if WholeRef(s).Some? {
        VariableErrorIsReal(env, WholeRef(s).value, stack);
      } else {
        PieceErrorIsReal(env, Pieces(s), stack);
      }
    case List(items) => ItemErrorIsReal(env, items, stack);
    case Dict(entries) => EntryErrorIsReal(env, entries, stack);
  }

  lemma {:induction false} PieceErrorIsReal(env: Env, pieces: seq<Piece>, stack: seq<string>)
    requires EvalPieces(env, pieces, stack).Err?
    ensures IsReal(env, PieceRefs(pieces), stack, EvalPieces(env, pieces, stack).error)
    decreases Room(env, stack), 1, pieces
  {
    hide EvalVar, IsReal, Room, PieceRefs;
    PieceRefsSplit(pieces);
    var e := EvalPieces(env, pieces, stack).error;
    if pieces[0].Ref? {
      var n := pieces[0].name;
      if EvalVar(env, n, stack).Err? {
        VariableErrorIsReal(env, n, stack);
        RealForMore(env, {n}, PieceRefs(pieces), stack, e);
      } else if IsStructured(EvalVar(env, n, stack).value) {
        StructureIsReal(env, n, stack);
        RealForMore(env, {n}, PieceRefs(pieces), stack, e);
      } else {
        PieceErrorIsReal(env, pieces[1..], stack);
        RealForMore(env, PieceRefs(pieces[1..]), PieceRefs(pieces), stack, e);
      }
    } else {
      PieceErrorIsReal(env, pieces[1..], stack);
      RealForMore(env, PieceRefs(pieces[1..]), PieceRefs(pieces), stack, e);
    }
  }

  lemma StructureIsReal(env: Env, n: string, stack: seq<string>)
    requires EvalVar(env, n, stack).Ok? && IsStructured(EvalVar(env, n, stack).value)
    ensures IsReal(env, {n}, stack, Structured(n))
  {
    StructureIsDenoted(env, n, stack);
    assert n !in env.deferred;
    assert Under(env, n, n);
  }

  lemma {:induction false} ItemErrorIsReal(env: Env, items: seq<Value>, stack: seq<string>)
    requires EvalItems(env, items, stack).Err?
    ensures IsReal(env, ItemRefs(items), stack, EvalItems(env, items, stack).error)
    decreases Room(env, stack), 2, items
  {
    hide EvalVar, IsReal, Room, Refs;
    var e := EvalItems(env, items, stack).error;
    if EvalValue(env, items[0], stack).Err? {
      ValueErrorIsReal(env, items[0], stack);
      RealForMore(env, Refs(items[0]), ItemRefs(items), stack, e);
    } else {
      ItemErrorIsReal(env, items[1..], stack);
      RealForMore(env, ItemRefs(items[1..]), ItemRefs(items), stack, e);
    }
  }

  lemma {:induction false} EntryErrorIsReal(env: Env, entries: seq<Entry>, stack: seq<string>)
    requires EvalEntries(env, entries, stack).Err?
    ensures IsReal(env, EntryRefs(entries), stack, EvalEntries(env, entries, stack).error)
    decreases Room(env, stack), 2, entries
  {
    hide EvalVar, IsReal, Room, Refs;
    var e := EvalEntries(env, entries, stack).error;
    if EvalValue(env, entries[0].value, stack).Err? {
      ValueErrorIsReal(env, entries[0].value, stack);
      RealForMore(env, Refs(entries[0].value), EntryRefs(entries), stack, e);
    } else {
      EntryErrorIsReal(env, entries[1..], stack);
      RealForMore(env, EntryRefs(entries[1..]), EntryRefs(entries), stack, e);
    }
  }
}
