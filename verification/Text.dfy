/** Whitespace compaction and the small token patterns that the log scanners use.

    Python's `re` is replaced by a matcher for four token kinds.  In every pattern used
    here a whitespace or digit token is followed by a token of a disjoint class, so greedy
    matching without backtracking is exact. */
module Text {
  import opened Characters
  import opened Collections
  import opened Wrappers

  function Lower(c: char): char {
    if 'A' <= c <= 'Z' then c - 'A' + 'a' else c
  }

  /** Length of the whitespace run that `t` starts with. */
  function SpaceRun(t: string): (n: nat)
    ensures n <= |t|
    ensures forall i :: 0 <= i < n ==> IsSpace(t[i])
    ensures n < |t| ==> !IsSpace(t[n])
  {
    if t != "" && IsSpace(t[0]) then 1 + SpaceRun(t[1..]) else 0
  }

  function DigitRun(t: string): (n: nat)
    ensures n <= |t|
    ensures forall i :: 0 <= i < n ==> IsDigit(t[i])
    ensures n < |t| ==> !IsDigit(t[n])
  {
    if t != "" && IsDigit(t[0]) then 1 + DigitRun(t[1..]) else 0
  }

  lemma {:induction false} SpaceRunUnique(t: string, n: nat)
    requires n <= |t| && forall i :: 0 <= i < n ==> IsSpace(t[i])
    requires n < |t| ==> !IsSpace(t[n])
    ensures SpaceRun(t) == n
  {
    var k := SpaceRun(t);
    assert k < |t| ==> !IsSpace(t[k]);
  }

  lemma {:induction false} DigitRunUnique(t: string, n: nat)
    requires n <= |t| && forall i :: 0 <= i < n ==> IsDigit(t[i])
    requires n < |t| ==> !IsDigit(t[n])
    ensures DigitRun(t) == n
  {
    var k := DigitRun(t);
    assert k < |t| ==> !IsDigit(t[k]);
  }

  // ---------------------------------------------------------------- compaction

  /** `re.sub(r"\s+", " ", t)` */
  function Compact(t: string): (r: string)
    ensures |r| <= |t|
    ensures (r == "") == (t == "")
    decreases |t|
  {
    if t == "" then ""
    else if IsSpace(t[0]) then " " + Compact(t[SpaceRun(t)..])
    else [t[0]] + Compact(t[1..])
  }

  /** No whitespace other than single blanks. */
  ghost predicate IsCompact(t: string) {
    && (forall i :: 0 <= i < |t| && IsSpace(t[i]) ==> t[i] == ' ')
    && (forall i :: 0 <= i < |t| - 1 ==> !IsSpace(t[i]) || !IsSpace(t[i + 1]))
  }

  predicate EndsInSpace(t: string) {
    t != "" && IsSpace(t[|t| - 1])
  }

  /** What compacted text `c` contributes after text that does, or does not, end in a blank. */
  function Glue(afterSpace: bool, c: string): string {
    if afterSpace && c != "" && c[0] == ' ' then c[1..] else c
  }

  lemma ConsIsCompact(x: char, c: string)
    requires IsCompact(c) && (IsSpace(x) ==> x == ' ' && (c == "" || !IsSpace(c[0])))
    ensures IsCompact([x] + c)
    ensures EndsInSpace([x] + c) == if c == "" then IsSpace(x) else EndsInSpace(c)
  {
    hide IsSpace;
    var d := [x] + c;
    assert forall i :: 0 < i < |d| ==> d[i] == c[i - 1];
  }

  lemma BlankIsSpace()
    ensures IsSpace(' ')
  {
  }

  lemma CompactNothing()
    ensures Compact("") == ""
  {
  }

  lemma {:induction false} CompactIsCompact(t: string)
    ensures IsCompact(Compact(t))
    ensures t != "" ==> Compact(t) != "" && (Compact(t)[0] == ' ') == IsSpace(t[0])
    ensures t != "" && !IsSpace(t[0]) ==> Compact(t)[0] == t[0]
    ensures EndsInSpace(Compact(t)) == EndsInSpace(t)
    decreases |t|
  {
    hide IsSpace, SpaceRun, Compact;
    BlankIsSpace();
    CompactNothing();
    if t != "" {
      var n := if IsSpace(t[0]) then SpaceRun(t) else 1;
      SpaceRunCounts(t);
      CompactStep(t, n);
      CompactIsCompact(t[n..]);
      ConsIsCompact(if IsSpace(t[0]) then ' ' else t[0], Compact(t[n..]));
    }
  }

  lemma SpaceRunCounts(t: string)
    requires t != ""
    ensures IsSpace(t[0]) ==> SpaceRun(t) > 0
  {
  }

  lemma {:induction false} CompactOfCompact(t: string)
    requires IsCompact(t)
    ensures Compact(t) == t
    decreases |t|
  {
    if t != "" {
      if IsSpace(t[0]) {
        SpaceRunUnique(t, 1);
      }
      assert t == [t[0]] + t[1..];
      CompactOfCompact(t[1..]);
    }
  }

  lemma {:induction false} CompactAppend(a: string, b: string)
    ensures Compact(a + b) == Compact(a) + Glue(EndsInSpace(a), Compact(b))
    decreases |a|
  {
    if a == "" {
      assert a + b == b;
    } else if SpaceRun(a) == |a| {
      BlankAppend(a, b);
    } else {
      var n := if IsSpace(a[0]) then SpaceRun(a) else 1;
      CompactAppend(a[n..], b);
      AppendStep(a, b, n);
    }
  }

  lemma AppendStep(a: string, b: string, n: nat)
    requires a != "" && SpaceRun(a) < |a| && n == if IsSpace(a[0]) then SpaceRun(a) else 1
    requires Compact(a[n..] + b) == Compact(a[n..]) + Glue(EndsInSpace(a[n..]), Compact(b))
    ensures Compact(a + b) == Compact(a) + Glue(EndsInSpace(a), Compact(b))
  {
    hide Compact, SpaceRun, IsSpace, Glue;
    var h := [if IsSpace(a[0]) then ' ' else a[0]];
    var rest := a[n..];
    assert EndsInSpace(a) == EndsInSpace(rest);
    assert Compact(a + b) == h + Compact(rest + b) by {
      if IsSpace(a[0]) {
        SpaceRunUnique(a + b, n);
      }
      DropAppend(a, b, n);
      CompactStep(a + b, n);
    }
    CompactStep(a, n);
    Associative(h, Compact(rest), Glue(EndsInSpace(a), Compact(b)));
  }

  lemma CompactStep(t: string, n: nat)
    requires t != "" && n == if IsSpace(t[0]) then SpaceRun(t) else 1
    ensures Compact(t) == [if IsSpace(t[0]) then ' ' else t[0]] + Compact(t[n..])
  {
  }

  lemma BlankAppend(a: string, b: string)
    requires a != "" && forall i :: 0 <= i < |a| ==> IsSpace(a[i])
    ensures Compact(a + b) == Compact(a) + Glue(true, Compact(b))
  {
    hide IsSpace, SpaceRun, Compact;
    var m := SpaceRun(b);
    SpaceRunUnique(a, |a|);
    SpaceRunUnique(a + b, |a| + m);
    CompactStep(a, |a|);
    CompactStep(a + b, |a| + m);
    CompactNothing();
    assert a[|a|..] == "" && (a + b)[|a| + m..] == b[m..];
    CompactIsCompact(b);
    if b == "" || m == 0 {
      assert b[m..] == b;
    } else {
      CompactStep(b, m);
    }
  }

  /** Compacting a piece before it is appended changes nothing. */
  lemma CompactAbsorbs(a: string, b: string)
    ensures Compact(a + Compact(b)) == Compact(a + b)
  {
    CompactAppend(a, b);
    CompactAppend(a, Compact(b));
    CompactIsCompact(b);
    CompactOfCompact(Compact(b));
  }

  lemma CompactSuffix(t: string, i: nat)
    requires IsCompact(t) && i <= |t|
    ensures IsCompact(t[i..])
  {
    forall k | 0 <= k < |t[i..]| - 1 ensures !IsSpace(t[i..][k]) || !IsSpace(t[i..][k + 1]) {
      assert !IsSpace(t[i + k]) || !IsSpace(t[i + k + 1]);
    }
  }

  lemma CompactRun(t: string)
    requires IsCompact(t)
    ensures SpaceRun(t) <= 1
  {
    var k := SpaceRun(t);
    assert |t| > 1 ==> !IsSpace(t[0]) || !IsSpace(t[1]);
  }

  // ---------------------------------------------------------------- token patterns

  /** One element of a pattern: a case-insensitive literal, `\s*`, `\s+` or `\d+`. */
  datatype Token = Lit(c: char) | Gap | Spaces | Digits

  function Lits(s: string): (p: seq<Token>)
    ensures |p| == |s| && forall i :: 0 <= i < |s| ==> p[i] == Lit(s[i])
  {
    seq(|s|, i requires 0 <= i < |s| => Lit(s[i]))
  }

  /** The words of `s` with `\s+` between them. */
  function Phrase(s: string): (p: seq<Token>)
    ensures |p| == |s| && forall i :: 0 <= i < |s| ==> p[i] == if s[i] == ' ' then Spaces else Lit(s[i])
  {
    seq(|s|, i requires 0 <= i < |s| => if s[i] == ' ' then Spaces else Lit(s[i]))
  }

  function Shift(k: nat, r: Option<nat>): Option<nat> {
    match r
    case None => None
    case Some(n) => Some(k + n)
  }

  /** The length of the match of `p` at the start of `t`, if there is one. */
  function Match(p: seq<Token>, t: string): (r: Option<nat>)
    ensures r.Some? ==> r.value <= |t|
  {
    if p == [] then Some(0) else
    match p[0]
    case Lit(c) =>
      if t != "" && Lower(t[0]) == c then Shift(1, Match(p[1..], t[1..])) else None
    case Gap =>
      Shift(SpaceRun(t), Match(p[1..], t[SpaceRun(t)..]))
    case Spaces =>
      if SpaceRun(t) > 0 then Shift(SpaceRun(t), Match(p[1..], t[SpaceRun(t)..])) else None
    case Digits =>
      if DigitRun(t) > 0 then Shift(DigitRun(t), Match(p[1..], t[DigitRun(t)..])) else None
  }

  /** `d` is `c`, or the small letter for the capital `c`. */
  predicate IsSmall(c: char, d: char) {
    c == d || ('A' <= c <= 'Z' && d as int == c as int + 32)
  }

  /** `t` is `s` with some capitals made small. */
  predicate AreSmall(s: string, t: string) {
    |s| == |t| && forall i :: 0 <= i < |s| ==> IsSmall(s[i], t[i])
  }

  /** The patterns take capitals and small letters for the same. */
  lemma {:induction false} CaseIsIgnored(p: seq<Token>, s: string, t: string)
    requires AreSmall(s, t)
    ensures Match(p, s) == Match(p, t)
    decreases |p|
  {
    hide SpaceRun, DigitRun, Lower, AreSmall;
    RunsAlike(s, t);
    if p != [] {
      var k := match p[0]
        case Lit(_) => if s == "" then 0 else 1
        case Digits => DigitRun(s)
        case _ => SpaceRun(s);
      DropsAlike(s, t, k);
      CaseIsIgnored(p[1..], s[k..], t[k..]);
    }
  }

  lemma DropsAlike(s: string, t: string, k: nat)
    requires AreSmall(s, t) && k <= |s|
    ensures |s| == |t| && AreSmall(s[k..], t[k..])
  {
    hide IsSmall;
  }

  lemma RunsAlike(s: string, t: string)
    requires AreSmall(s, t)
    ensures |s| == |t| && SpaceRun(s) == SpaceRun(t) && DigitRun(s) == DigitRun(t)
    ensures s != "" ==> Lower(s[0]) == Lower(t[0])
  {
    forall i | 0 <= i < |s|
      ensures Lower(s[i]) == Lower(t[i]) && IsSpace(s[i]) == IsSpace(t[i]) && IsDigit(s[i]) == IsDigit(t[i])
    {
      FoldsAlike(s[i], t[i]);
    }
    hide IsSpace, IsDigit, Lower, IsSmall;
    SpaceRunUnique(t, SpaceRun(s));
    DigitRunUnique(t, DigitRun(s));
  }

  /** Capitals are folded, and nothing else is. */
  lemma FoldsAlike(c: char, d: char)
    requires IsSmall(c, d)
    ensures Lower(c) == Lower(d) && IsSpace(c) == IsSpace(d) && IsDigit(c) == IsDigit(d) && IsSmall(c, Lower(c))
  {
  }

  /** Literals are written folded and are not blanks; `\d+` can only come last. */
  ghost predicate WellFormed(p: seq<Token>) {
    && (forall i :: 0 <= i < |p| && p[i].Lit? ==> !IsSpace(p[i].c) && Lower(p[i].c) == p[i].c)
    && (forall i :: 0 <= i < |p| - 1 ==> !p[i].Digits?)
  }

  lemma WellFormedTail(p: seq<Token>)
    requires WellFormed(p) && p != []
    ensures WellFormed(p[1..])
  {
    forall i | 0 <= i < |p[1..]| - 1 ensures !p[1..][i].Digits? {
      assert p[1..][i] == p[i + 1];
    }
  }

  /** Appending text cannot change a match that ends before the end of the text. */
  lemma {:induction false} MatchStable(p: seq<Token>, t: string, y: string)
    requires Match(p, t).Some?
    requires Match(p, t).value < |t| || (p != [] && p[|p| - 1].Lit?)
    ensures Match(p, t + y) == Match(p, t)
    decreases |p|
  {
    if p != [] {
      var k := match p[0]
        case Lit(_) => 1
        case Digits => DigitRun(t)
        case _ => SpaceRun(t);
      if |p| == 1 && p[0].Lit? {
      } else {
        if k == |t| && !p[0].Lit? {
          MatchNeedsText(p[1..], t[k..]);
        }
        if p[0].Gap? || p[0].Spaces? {
          SpaceRunUnique(t + y, k);
        } else if p[0].Digits? {
          DigitRunUnique(t + y, k);
        }
        assert (t + y)[k..] == t[k..] + y;
        MatchStable(p[1..], t[k..], y);
      }
    }
  }

  /** A pattern that ends in a literal does not match the empty text. */
  lemma {:induction false} MatchNeedsText(p: seq<Token>, t: string)
    requires t == "" && Match(p, t).Some?
    ensures p == [] || !p[|p| - 1].Lit?
    decreases |p|
  {
    if p != [] {
      assert t[SpaceRun(t)..] == "";
      MatchNeedsText(p[1..], "");
    }
  }

  /** In compacted text, a pattern that has failed on at least as many characters as it has
      tokens has failed for good. */
  lemma {:induction false} MismatchStable(p: seq<Token>, t: string, y: string)
    requires WellFormed(p) && IsCompact(t) && |t| >= |p|
    ensures Match(p, t).None? ==> Match(p, t + y).None?
    decreases |p|
  {
    hide Match, FirstLength, IsSpace, SpaceRun, DigitRun;
    if p == [] {
      MatchNothing(t);
    } else {
      MatchStep(p, t);
      MatchStep(p, t + y);
      var f := FirstLength(p[0], t);
      if f.None? {
        FirstMismatch(p[0], t, y);
      } else if p[1..] == [] {
        MatchNothing(t[f.value..]);
      } else {
        FirstKept(p[0], t, y);
        WellFormedTail(p);
        NotLastDigits(p);
        CompactSuffix(t, f.value);
        DropAppend(t, y, f.value);
        MismatchStable(p[1..], t[f.value..], y);
      }
    }
  }

  lemma MatchNothing(t: string)
    ensures Match([], t) == Some(0)
  {
  }

  lemma NotLastDigits(p: seq<Token>)
    requires WellFormed(p) && |p| > 1
    ensures !p[0].Digits?
  {
  }

  lemma FirstMismatch(token: Token, t: string, y: string)
    requires t != "" && FirstLength(token, t).None?
    ensures FirstLength(token, t + y).None?
  {
    assert (t + y)[0] == t[0];
  }

  /** A first token that is not a digit run takes the same single character however the text goes on. */
  lemma FirstKept(token: Token, t: string, y: string)
    requires IsCompact(t) && |t| > 1 && FirstLength(token, t).Some?
    ensures !token.Digits? ==> FirstLength(token, t + y) == FirstLength(token, t) && FirstLength(token, t).value <= 1
  {
    hide IsSpace, DigitRun;
    if !token.Digits? && !token.Lit? {
      CompactRun(t);
      SpaceRunUnique(t + y, SpaceRun(t));
    }
  }

  /** Compaction preserves matching, and the rest after the match is the compacted rest. */
  lemma {:induction false} MatchCompact(p: seq<Token>, t: string)
    requires WellFormed(p)
    ensures Match(p, Compact(t)).Some? == Match(p, t).Some?
    ensures Match(p, t).Some? ==>
              Compact(t)[Match(p, Compact(t)).value..] == Compact(t[Match(p, t).value..])
    decreases |p|
  {
    var c := Compact(t);
    assert c[0..] == c && t[0..] == t;
    if p != [] {
      WellFormedTail(p);
      var k := FirstLength(p[0], t);
      var m := FirstLength(p[0], c);
      FirstCompact(p[0], t);
      assert k.Some? == m.Some?;
      if k.Some? {
        MatchCompact(p[1..], t[k.value..]);
        MatchFirst(p, t);
        MatchFirst(p, c);
      } else {
        MatchFirst(p, t);
        MatchFirst(p, c);
      }
    }
  }

  /** The length that a single token takes. */
  function FirstLength(token: Token, t: string): (r: Option<nat>)
    ensures r.Some? ==> r.value <= |t|
  {
    match token
    case Lit(c) => if t != "" && Lower(t[0]) == c then Some(1) else None
    case Gap => Some(SpaceRun(t))
    case Spaces => if SpaceRun(t) > 0 then Some(SpaceRun(t)) else None
    case Digits => if DigitRun(t) > 0 then Some(DigitRun(t)) else None
  }

  lemma MatchFirst(p: seq<Token>, t: string)
    requires p != []
    ensures FirstLength(p[0], t).None? ==> Match(p, t).None?
    ensures FirstLength(p[0], t).Some? ==>
              && Match(p, t) == Shift(FirstLength(p[0], t).value, Match(p[1..], t[FirstLength(p[0], t).value..]))
              && (Match(p, t).Some? ==>
                    t[Match(p, t).value..] == t[FirstLength(p[0], t).value..][
                      Match(p[1..], t[FirstLength(p[0], t).value..]).value..])
  {
    hide Match, FirstLength;
    MatchStep(p, t);
    if FirstLength(p[0], t).Some? {
      var k := FirstLength(p[0], t).value;
      var r := Match(p[1..], t[k..]);
      if r.Some? {
        DropDrop(t, k, r.value);
      }
    }
  }

  lemma MatchStep(p: seq<Token>, t: string)
    requires p != []
    ensures FirstLength(p[0], t).None? ==> Match(p, t).None?
    ensures FirstLength(p[0], t).Some? ==>
              Match(p, t) == Shift(FirstLength(p[0], t).value, Match(p[1..], t[FirstLength(p[0], t).value..]))
  {
    hide SpaceRun, DigitRun, IsSpace, IsDigit, Lower;
  }

  lemma FirstCompact(token: Token, t: string)
    requires WellFormed([token])
    ensures FirstLength(token, Compact(t)).Some? == FirstLength(token, t).Some?
    ensures FirstLength(token, t).Some? ==>
              Compact(t)[FirstLength(token, Compact(t)).value..] == Compact(t[FirstLength(token, t).value..])
  {
    var c := Compact(t);
    CompactIsCompact(t);
    assert [token][0] == token;
    if token.Digits? {
      CompactDigits(t);
    } else if t != "" {
      var n := if IsSpace(t[0]) then SpaceRun(t) else 1;
      CompactStep(t, n);
      assert c[1..] == Compact(t[n..]);
      CompactRun(c);
      if !IsSpace(t[0]) {
        assert t[0..] == t && c[0..] == c;
      }
    }
  }

  lemma {:induction false} CompactDigits(t: string)
    ensures DigitRun(Compact(t)) == DigitRun(t)
    ensures Compact(t)[DigitRun(t)..] == Compact(t[DigitRun(t)..])
    decreases |t|
  {
    hide IsSpace;
    CompactIsCompact(t);
    if t != "" && IsDigit(t[0]) {
      var rest := t[1..];
      NotSpace(t[0]);
      CompactDigits(rest);
      CompactStep(t, 1);
      DropDrop(t, 1, DigitRun(rest));
      DropDrop(Compact(t), 1, DigitRun(rest));
      assert Compact(t)[1..] == Compact(rest);
    } else {
      assert t[0..] == t && Compact(t)[0..] == Compact(t);
      if t != "" {
        NotDigit(t[0]);
        NotDigit(Compact(t)[0]);
      }
    }
  }

  lemma NotSpace(c: char)
    ensures IsDigit(c) ==> !IsSpace(c)
  {
  }

  lemma NotDigit(c: char)
    ensures IsSpace(c) ==> !IsDigit(c)
    ensures !IsDigit(' ')
  {
  }
}
