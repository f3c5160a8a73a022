/** results.py, `_SummaryScan`: the bounded scan for UVM report counts. */
module SummaryScan {
  import opened Characters
  import opened Collections
  import opened Wrappers
  import opened Text
  import opened UvmEvents

  const TAIL := 128
  const PENDING_LIMIT := 4096

  /** The event pattern as the source writes it, for compacted text. */
  function RegexAt(t: string): Option<Found> {
    FirstOf(HeaderAt(COMPACT_HEADER, t), AnyCountAt(t))
  }

  lemma {:induction false} BlankIsSpaces(p: seq<Token>, q: seq<Token>, t: string)
    requires IsCompact(t) && |p| == |q|
    requires forall i :: 0 <= i < |p| ==> p[i] == q[i] || (p[i] == Lit(' ') && q[i] == Spaces)
    ensures Match(p, t) == Match(q, t)
    decreases |p|
  {
    if p != [] {
      CompactRun(t);
      var k := match q[0]
        case Lit(_) => if t == "" then 0 else 1
        case Digits => DigitRun(t)
        case _ => SpaceRun(t);
      CompactSuffix(t, k);
      BlankIsSpaces(p[1..], q[1..], t[k..]);
    }
  }

  lemma RegexIsGrammar(t: string)
    requires IsCompact(t)
    ensures RegexAt(t) == EventAt(t)
  {
    BlankIsSpaces(COMPACT_HEADER, HEADER, t);
  }

  /** A count field so long that the bounded buffer cannot hold it. */
  ghost predicate LongFieldAt(c: string, i: nat) {
    i <= |c| && EventAt(c[i..]).Some? && EventAt(c[i..]).value.event.Count?
    && EventAt(c[i..]).value.length > PENDING_LIMIT
  }

  /** A count field of the compacted text `c` that ends where `c` ends. */
  ghost predicate OpenCountAt(c: string, i: nat) {
    i <= |c| && EventAt(c[i..]).Some? && EventAt(c[i..]).value.event.Count?
    && i + EventAt(c[i..]).value.length == |c|
  }

  /** No event starts in `t[a..b]`. */
  ghost predicate Quiet(t: string, a: nat, b: nat) {
    a <= b <= |t| && forall p :: a <= p < b ==> EventAt(t[p..]).None?
  }

  /** Scanning `t` and whatever may follow it from `r0` equals scanning `rest` and the same
      continuation from `r1`. */
  ghost predicate Continues(t: string, r0: Report, rest: string, r1: Report) {
    forall y: string :: Run(t + y, r0) == Run(rest + y, r1)
  }

  /** Text without a starting event may be skipped before a settled event. */
  lemma QuietBeforeEvent(t: string, a: nat, i: nat, y: string, r: Report)
    requires IsCompact(t) && Quiet(t, a, i) && i < |t|
    requires EventAt(t[i..]).Some?
    requires EventAt(t[i..]).value.event.Header? || i + EventAt(t[i..]).value.length < |t|
    ensures Run(t[a..] + y, r)
         == Run(t[i + EventAt(t[i..]).value.length..] + y, Apply(EventAt(t[i..]).value.event, r))
  {
    hide EventAt, Run;
    var f := EventAt(t[i..]).value;
    EventLength(t[i..]);
    DropAppend(t, y, i);
    EventStable(t[i..], y);
    QuietAppended(t, a, i, y);
    RunSkips(t + y, a, i, r);
    RunTakes(t + y, i, r);
    DropAppend(t, y, a);
    DropAppend(t, y, i + f.length);
  }

  lemma QuietAppended(t: string, a: nat, i: nat, y: string)
    requires Quiet(t, a, i) && i < |t| && EventAt(t[i..]).Some? && EventAt((t + y)[i..]).Some?
    ensures Quiet(t + y, a, i)
  {
    forall p | a <= p < i ensures EventAt((t + y)[p..]).None? {
      DropAppend(t, y, p);
      DropAppend(t[p..], y, i - p);
      DropDrop(t, p, i - p);
      DropDrop(t + y, p, i - p);
      StillQuiet(t[p..], y, i - p);
    }
  }

  /** Nothing that starts before a settled event can grow across it. */
  lemma StillQuiet(u: string, y: string, n: nat)
    requires EventAt(u).None? && 0 < n < |u| && EventAt(u[n..]).Some? && EventAt((u + y)[n..]).Some?
    ensures EventAt(u + y).None?
  {
    if EventAt(u + y).Some? {
      var g := EventAt(u + y).value;
      EventLength(u + y);
      FoundMatches(u + y);
      if n < g.length {
        EventsDoNotNest(u + y, n);
      } else {
        MatchShrinks(PatternOf(g.event), u, y);
        EventUnique(g.event, u);
      }
    }
  }

  /** Text without a starting event may be dropped, except for its last 128 characters. */
  lemma QuietPrefix(t: string, a: nat, b: nat, y: string, r: Report)
    requires IsCompact(t) && Quiet(t, a, b) && (a == b || b + TAIL <= |t|)
    ensures Run(t[a..] + y, r) == Run(t[b..] + y, r)
  {
    forall p | a <= p < b ensures EventAt((t + y)[p..]).None? {
      DropAppend(t, y, p);
      CompactSuffix(t, p);
      AbsenceStable(t[p..], y);
    }
    RunSkips(t + y, a, b, r);
    DropAppend(t, y, a);
    DropAppend(t, y, b);
  }

  /** What stays buffered may hold one open count, but no header. */
  lemma BufferedReports(t: string, b: nat, i: nat, r: Report)
    requires Quiet(t, b, i) && (i == |t| || OpenCountAt(t, i))
    ensures Run(t[b..], r).reports == r.reports
  {
    RunSkips(t, b, i, r);
    if i < |t| {
      RunTakes(t, i, r);
      assert t[i + EventAt(t[i..]).value.length..] == "";
    } else {
      assert t[i..] == "";
    }
  }

  /** Scanning has reached `i`: everything before `settled` is accounted for in `r1`, and no
      event starts between `settled` and `i`. */
  ghost predicate Progress(t: string, final: bool, r0: Report, settled: nat, i: nat, r1: Report) {
    && IsCompact(t)
    && settled <= i <= |t| && Quiet(t, settled, i)
    && (!final ==> Continues(t, r0, t[settled..], r1))
    && (final ==> Run(t, r0) == Run(t[settled..], r1))
    && (settled == |t| ==> !EndsInSpace(t))
    && r0.reports <= r1.reports
  }

  lemma ProgressStart(t: string, final: bool, r0: Report)
    requires IsCompact(t)
    ensures Progress(t, final, r0, 0, 0, r0)
  {
    assert t[0..] == t;
  }

  lemma ProgressSkip(t: string, final: bool, r0: Report, settled: nat, i: nat, r1: Report)
    requires Progress(t, final, r0, settled, i, r1) && i < |t| && EventAt(t[i..]).None?
    ensures Progress(t, final, r0, settled, i + 1, r1)
  {
  }

  lemma ProgressTake(t: string, final: bool, r0: Report, settled: nat, i: nat, r1: Report)
    requires Progress(t, final, r0, settled, i, r1) && i < |t| && EventAt(t[i..]).Some?
    requires final || EventAt(t[i..]).value.event.Header? || i + EventAt(t[i..]).value.length < |t|
    ensures var f := EventAt(t[i..]).value;
            Progress(t, final, r0, i + f.length, i + f.length, Apply(f.event, r1))
  {
    hide EventAt, Run, IsCompact, IsSpace;
    var f := EventAt(t[i..]).value;
    EventLength(t[i..]);
    EventEndsSolid(t[i..]);
    if final {
      RunSkips(t, settled, i, r1);
      RunTakes(t, i, r1);
    } else {
      forall y: string ensures Run(t + y, r0) == Run(t[i + f.length..] + y, Apply(f.event, r1)) {
        QuietBeforeEvent(t, settled, i, y, r1);
      }
    }
  }

  /** Where the buffer starts after a feed that stopped at `i`. */
  function Boundary(n: nat, final: bool, settled: nat, i: nat): nat
    requires settled <= i <= n
  {
    var bound := if final then n else if n > TAIL then n - TAIL else 0;
    var b := if settled > bound then settled else bound;
    if i < b then i else b
  }

  /** What a feed promises: the buffer stands for all text so far, whatever comes next. */
  ghost predicate FeedSpec(before: string, text: string, final: bool, r0: Report, pending: string, r1: Report) {
    && (!final ==> forall z: string :: Run(before + text + z, r0) == Run(pending + z, r1))
    && (!final ==> Run(pending, r1).reports == r1.reports && EndsInSpace(pending) == EndsInSpace(before + text))
    && (final ==> pending == "" && r1 == Run(before + text, r0))
    && r0.reports <= r1.reports
  }

  lemma FeedDone(before: string, text: string, final: bool, r0: Report, t: string, settled: nat, i: nat, r1: Report)
    requires t == Compact(before + text) && Progress(t, final, r0, settled, i, r1)
    requires i == |t| || (!final && OpenCountAt(t, i))
    ensures ghost var b := Boundary(|t|, final, settled, i);
            && FeedSpec(before, text, final, r0, t[b..], r1)
            && (|t| - b > PENDING_LIMIT ==> LongFieldAt(t, i) && OpenCountAt(t, i))
  {
    hide EventAt, Run, Compact, IsSpace;
    var b := Boundary(|t|, final, settled, i);
    if final {
      RunSkips(t, settled, |t|, r1);
      RunCompact(before + text, r0);
      RunNothing(t[|t|..], r1);
    } else {
      forall z: string ensures Run(before + text + z, r0) == Run(t[b..] + z, r1) {
        AcrossJoint(before + text, z, t, b, settled, i, r0, r1);
      }
      BufferedReports(t, b, i, r1);
      SameEnd(before + text, t, b);
    }
  }

  lemma SameEnd(x: string, t: string, b: nat)
    requires t == Compact(x) && b <= |t| && (b < |t| || !EndsInSpace(t))
    ensures EndsInSpace(t[b..]) == EndsInSpace(x)
  {
    CompactIsCompact(x);
  }

  lemma RunNothing(t: string, r: Report)
    requires t == ""
    ensures Run(t, r) == r
  {
  }

  class Scan {
    var pending: string
    var counts: map<Name, nat>
    var reports: nat

    function Result(): Report
      reads this
    {
      Report(counts, reports)
    }

    ghost predicate Valid()
      reads this
    {
      IsCompact(pending)
    }

    constructor ()
      ensures Valid() && pending == "" && Result() == INITIAL
    {
      pending, counts, reports := "", map[], 0;
    }

    method Record(e: Event)
      modifies this
      ensures Result() == Apply(e, old(Result())) && pending == old(pending)
    {
      match e {
        case Header => counts, reports := map[], reports + 1;
        case Count(n, v) => counts := counts[n := v];
      }
    }

    /** Consumes `text`; fails exactly when more than 4096 characters would stay buffered. */
    method Feed(text: string, final: bool) returns (ok: bool)
      requires Valid()
      modifies this
      ensures Valid()
      ensures ok <==> |pending| <= PENDING_LIMIT
      ensures FeedSpec(old(pending), text, final, old(Result()), pending, Result())
      ensures exists b :: 0 <= b <= |Compact(old(pending) + text)| && pending == Compact(old(pending) + text)[b..]
      ensures !ok ==> exists i :: LongFieldAt(Compact(old(pending) + text), i)
                                  && OpenCountAt(Compact(old(pending) + text), i)
    {
      hide EventAt, RegexAt, Run, Compact, IsSpace, Progress, Continues, Quiet, FeedSpec, IsCompact, LongFieldAt;
      var t := Compact(pending + Compact(text));
      ghost var r0 := Result();
      CompactAbsorbs(pending, text);
      CompactIsCompact(pending + text);
      var boundary := if final then |t| else if |t| > TAIL then |t| - TAIL else 0;
      var i := 0;
      ghost var settled: nat := 0;
      ProgressStart(t, final, r0);
      while i < |t|
        invariant settled <= i <= |t| && Progress(t, final, r0, settled, i, Result())
        invariant boundary == Boundary(|t|, final, settled, |t|)
        invariant pending == old(pending)
      {
        RegexIsGrammar(t[i..]) by {
          CompactSuffix(t, i);
        }
        match RegexAt(t[i..]) {
          case None =>
            ProgressSkip(t, final, r0, settled, i, Result());
            i := i + 1;
          case Some(f) =>
            EventLength(t[i..]);
            var end := i + f.length;
            if !final && f.event.Count? && end == |t| {
              boundary := if i < boundary then i else boundary;
              break;
            }
            ProgressTake(t, final, r0, settled, i, Result());
            Record(f.event);
            boundary := if end > boundary then end else boundary;
            i, settled := end, end;
        }
      }
      FeedDone(old(pending), text, final, r0, t, settled, i, Result());
      CompactSuffix(t, boundary);
      pending := t[boundary..];
      ok := |pending| <= PENDING_LIMIT;
    }
  }

  /** The buffered text continues exactly as the whole text does, also across a joint inside
      a whitespace run. */
  lemma AcrossJoint(x: string, z: string, t: string, b: nat, settled: nat, i: nat, r0: Report, r1: Report)
    requires t == Compact(x) && settled <= b <= i <= |t|
    requires Continues(t, r0, t[settled..], r1) && Quiet(t, settled, i)
    requires b == settled || b + TAIL <= |t|
    requires b < |t| || t == "" || !EndsInSpace(t)
    ensures Run(x + z, r0) == Run(t[b..] + z, r1)
  {
    hide Run, EventAt, Compact, IsSpace, Glue;
    var rest := t[b..];
    var y := Glue(EndsInSpace(x), Compact(z));
    CompactIsCompact(x);
    assert Compact(x + z) == t + y by {
      CompactAppend(x, z);
    }
    assert Compact(rest + z) == rest + y by {
      CompactSuffix(t, b);
      CompactOfCompact(rest);
      CompactAppend(rest, z);
    }
    RunCompact(x + z, r0);
    RunCompact(rest + z, r1);
    QuietPrefix(t, settled, b, y, r1);
  }
}
