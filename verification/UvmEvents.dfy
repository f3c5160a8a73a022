/** The UVM report grammar of results.py, and what a complete text means. */
module UvmEvents {
  import opened Characters
  import opened Collections
  import opened Wrappers
  import opened Text

  datatype Name = INFO | WARNING | ERROR | FATAL

  datatype Event = Header | Count(name: Name, value: nat)

  datatype Found = Found(event: Event, length: nat)

  /** Counts since the last report header, and the number of headers. */
  datatype Report = Report(counts: map<Name, nat>, reports: nat)

  const INITIAL := Report(map[], 0)

  function Word(n: Name): string {
    match n
    case INFO => "uvm_info"
    case WARNING => "uvm_warning"
    case ERROR => "uvm_error"
    case FATAL => "uvm_fatal"
  }

  const HEADER_TEXT := "uvm report summary"

  /** The report header, whose words any whitespace may separate. */
  const HEADER: seq<Token> := Phrase(HEADER_TEXT)

  /** The header as results.py writes it, for text that is already compact. */
  const COMPACT_HEADER: seq<Token> := Lits(HEADER_TEXT)

  function CountPattern(n: Name): seq<Token> {
    Lits(Word(n)) + [Gap, Lit(':'), Gap, Digits]
  }

  /** The digits that `s` ends with. */
  function DigitTail(s: string): string {
    if s == "" || !IsDigit(s[|s| - 1]) then "" else DigitTail(s[..|s| - 1]) + [s[|s| - 1]]
  }

  function ToNat(s: string): nat
    requires forall i :: 0 <= i < |s| ==> IsDigit(s[i])
  {
    if s == "" then 0 else
    assert IsDigit(s[|s| - 1]);
    10 * ToNat(s[..|s| - 1]) + (s[|s| - 1] as int - '0' as int)
  }

  lemma DigitTailIsDigits(s: string)
    ensures forall i :: 0 <= i < |DigitTail(s)| ==> IsDigit(DigitTail(s)[i])
  {
  }

  function CountAt(n: Name, t: string): Option<Found> {
    match Match(CountPattern(n), t)
    case None => None
    case Some(k) =>
      DigitTailIsDigits(t[..k]);
      Some(Found(Count(n, ToNat(DigitTail(t[..k]))), k))
  }

  function FirstOf(a: Option<Found>, b: Option<Found>): Option<Found> {
    if a.Some? then a else b
  }

  function AnyCountAt(t: string): Option<Found> {
    FirstOf(CountAt(INFO, t), FirstOf(CountAt(WARNING, t), FirstOf(CountAt(ERROR, t), CountAt(FATAL, t))))
  }

  function HeaderAt(header: seq<Token>, t: string): Option<Found> {
    match Match(header, t)
    case None => None
    case Some(k) => Some(Found(Header, k))
  }

  /** The event that starts exactly where `t` starts. */
  function EventAt(t: string): Option<Found> {
    FirstOf(HeaderAt(HEADER, t), AnyCountAt(t))
  }

  function Apply(e: Event, r: Report): Report {
    match e
    case Header => Report(map[], r.reports + 1)
    case Count(n, v) => r.(counts := r.counts[n := v])
  }

  /** All events of `t` from left to right. */
  function Run(t: string, r: Report): Report
    decreases |t|
  {
    if t == "" then r else
    match EventAt(t)
    case None => Run(t[1..], r)
    case Some(f) =>
      EventLength(t);
      Run(t[f.length..], Apply(f.event, r))
  }

  // ---------------------------------------------------------------- shape of the patterns

  function PatternOf(e: Event): seq<Token> {
    match e
    case Header => HEADER
    case Count(n, _) => CountPattern(n)
  }

  /** Every pattern starts with `uv`, is short, and holds no second `u` followed by a `v`. */
  ghost predicate EventShape(p: seq<Token>) {
    && WellFormed(p)
    && 5 < |p| <= 18
    && p[0] == Lit('u') && p[1] == Lit('v') && p[2] == Lit('m')
    && forall i :: 1 <= i < |p| && p[i] == Lit('u') ==> i + 1 < |p| && p[i + 1].Lit? && p[i + 1].c != 'v'
  }

  lemma PatternShapes(e: Event)
    ensures EventShape(PatternOf(e))
    ensures e.Header? ==> PatternOf(e)[3] == Spaces && PatternOf(e)[|PatternOf(e)| - 1].Lit?
    ensures e.Count? ==> PatternOf(e)[3] == Lit('_') && PatternOf(e)[4] == Lit(Word(e.name)[4])
  {
    match e
    case Header => HeaderShape();
    case Count(n, _) => CountShape(n);
  }

  lemma HeaderShape()
    ensures EventShape(HEADER) && HEADER[3] == Spaces && HEADER[17] == Lit('y') && |HEADER| == 18
  {
    var h := HEADER_TEXT;
    assert |h| == 18 && h[0] == 'u' && h[1] == 'v' && h[2] == 'm' && h[3] == ' ' && h[13] == 'm' && h[17] == 'y';
    assert forall i :: 1 <= i < 18 && h[i] == 'u' ==> i == 12;
    assert forall i :: 0 <= i < 18 && h[i] != ' ' ==> 'a' <= h[i] <= 'z';
  }

  lemma WordShape(n: Name)
    ensures var w := Word(n);
            && 8 <= |w| <= 11 && w[0] == 'u' && w[1] == 'v' && w[2] == 'm' && w[3] == '_'
            && forall i :: 0 <= i < |w| ==> !IsSpace(w[i]) && Lower(w[i]) == w[i] && (i > 0 ==> w[i] != 'u')
  {
    match n
    case INFO => assert |"uvm_info"| == 8;
    case WARNING => assert |"uvm_warning"| == 11;
    case ERROR => assert |"uvm_error"| == 9;
    case FATAL => assert |"uvm_fatal"| == 9;
  }

  lemma CountShape(n: Name)
    ensures EventShape(CountPattern(n)) && CountPattern(n)[3] == Lit('_') && CountPattern(n)[4] == Lit(Word(n)[4])
  {
    WordShape(n);
    var w, p := Word(n), CountPattern(n);
    forall i | 0 <= i < |p| ensures p[i] == if i < |w| then Lit(w[i]) else [Gap, Lit(':'), Gap, Digits][i - |w|] {
    }
  }

  lemma {:induction false} MatchHead(p: seq<Token>, t: string, n: nat)
    requires Match(p, t).Some? && n <= |p| && forall i :: 0 <= i < n ==> p[i].Lit?
    ensures n <= Match(p, t).value <= |t|
    ensures forall i :: 0 <= i < n ==> Lower(t[i]) == p[i].c
    decreases n
  {
    if n > 0 {
      MatchHead(p[1..], t[1..], n - 1);
      forall i | 0 <= i < n ensures Lower(t[i]) == p[i].c {
        if i > 0 {
          assert t[i] == t[1..][i - 1] && p[i] == p[1..][i - 1];
        }
      }
    }
  }

  lemma {:induction false} EventLength(t: string)
    ensures EventAt(t).Some? ==> 3 <= EventAt(t).value.length <= |t|
  {
    if EventAt(t).Some? {
      var f := EventAt(t).value;
      PatternShapes(f.event);
      MatchHead(PatternOf(f.event), t, 3);
    }
  }

  predicate StartsUv(t: string) {
    |t| >= 2 && Lower(t[0]) == 'u' && Lower(t[1]) == 'v'
  }

  /** At most one pattern matches at a position, so the order of the alternatives is immaterial. */
  lemma EventUnique(e: Event, t: string)
    requires Match(PatternOf(e), t).Some?
    ensures EventAt(t).Some? && EventAt(t).value.length == Match(PatternOf(e), t).value
    ensures EventAt(t).value.event.Header? == e.Header?
    ensures e.Count? ==> EventAt(t).value.event.name == e.name && EventAt(t) == CountAt(e.name, t)
    ensures StartsUv(t)
  {
    PatternShapes(e);
    MatchHead(PatternOf(e), t, if e.Header? then 3 else 5);
    if e.Header? {
      assert EventAt(t).value.event.Header?;
    } else {
      HeaderLetter(t);
      OtherCounts(e.name, t);
    }
  }

  lemma HeaderLetter(t: string)
    requires |t| > 3 && Lower(t[3]) == '_'
    ensures Match(HEADER, t).None?
  {
    PatternShapes(Header);
    if Match(HEADER, t).Some? {
      MatchSpaces(HEADER, t, 3);
    }
  }

  lemma {:induction false} MatchSpaces(p: seq<Token>, t: string, n: nat)
    requires Match(p, t).Some? && n < |p| && p[n].Spaces? && forall i :: 0 <= i < n ==> p[i].Lit?
    ensures n < |t| && IsSpace(t[n])
    decreases n
  {
    if n > 0 {
      MatchSpaces(p[1..], t[1..], n - 1);
    }
  }

  lemma OtherCounts(n: Name, t: string)
    requires Match(CountPattern(n), t).Some?
    ensures forall m: Name :: m != n ==> CountAt(m, t).None?
  {
    hide Match, CountPattern, DigitTail, ToNat;
    PatternShapes(Count(n, 0));
    MatchHead(CountPattern(n), t, 5);
    forall m: Name | m != n ensures CountAt(m, t).None? {
      PatternShapes(Count(m, 0));
      if Match(CountPattern(m), t).Some? {
        MatchHead(CountPattern(m), t, 5);
      }
    }
  }

  // ---------------------------------------------------------------- events and appended text

  lemma FoundMatches(t: string)
    requires EventAt(t).Some?
    ensures var f := EventAt(t).value; Match(PatternOf(f.event), t) == Some(f.length)
  {
  }

  /** An event that ends before the text does, or is a header, is final. */
  lemma EventStable(t: string, y: string)
    requires EventAt(t).Some?
    requires EventAt(t).value.event.Header? || EventAt(t).value.length < |t|
    ensures EventAt(t + y) == EventAt(t)
  {
    var f := EventAt(t).value;
    FoundMatches(t);
    PatternShapes(f.event);
    MatchStable(PatternOf(f.event), t, y);
    EventUnique(f.event, t);
    EventUnique(f.event, t + y);
    assert (t + y)[..f.length] == t[..f.length];
  }

  /** Text only ever lengthens an event. */
  lemma EventGrows(t: string, y: string)
    requires EventAt(t).Some?
    ensures EventAt(t + y).Some? && EventAt(t + y).value.length >= EventAt(t).value.length
    ensures EventAt(t + y).value.event.Header? == EventAt(t).value.event.Header?
  {
    var f := EventAt(t).value;
    FoundMatches(t);
    PatternShapes(f.event);
    MatchGrows(PatternOf(f.event), t, y);
    EventUnique(f.event, t + y);
  }

  lemma {:induction false} MatchGrows(p: seq<Token>, t: string, y: string)
    requires WellFormed(p) && Match(p, t).Some? && p != [] && (p[|p| - 1].Lit? || p[|p| - 1].Digits?)
    ensures Match(p, t + y).Some? && Match(p, t + y).value >= Match(p, t).value
    decreases |p|
  {
    var k := match p[0]
      case Lit(_) => 1
      case Digits => DigitRun(t)
      case _ => SpaceRun(t);
    if |p| == 1 {
      if p[0].Digits? && k < |t| {
        DigitRunUnique(t + y, k);
      } else if p[0].Digits? {
        DigitRunUnique(t + y, k + DigitRun(y));
      }
    } else {
      WellFormedTail(p);
      if !p[0].Lit? {
        if k == |t| {
          MatchNeedsAny(p[1..], t[k..]);
        }
        SpaceRunUnique(t + y, k);
      }
      DropAppend(t, y, k);
      MatchGrows(p[1..], t[k..], y);
    }
  }

  lemma {:induction false} MatchNeedsAny(p: seq<Token>, t: string)
    requires t == "" && p != [] && Match(p, t).Some?
    ensures !p[|p| - 1].Lit? && !p[|p| - 1].Digits?
    decreases |p|
  {
    if |p| > 1 {
      assert t[SpaceRun(t)..] == "";
      MatchNeedsAny(p[1..], "");
    }
  }

  lemma RunsShrink(t: string, y: string)
    ensures DigitRun(t + y) < |t| ==> DigitRun(t) == DigitRun(t + y)
    ensures SpaceRun(t + y) < |t| ==> SpaceRun(t) == SpaceRun(t + y)
    ensures t != "" ==> (t + y)[0] == t[0]
  {
    var d, s := DigitRun(t + y), SpaceRun(t + y);
    assert forall i :: 0 <= i < |t| ==> t[i] == (t + y)[i];
    if d < |t| {
      DigitRunUnique(t, d);
    }
    if s < |t| {
      SpaceRunUnique(t, s);
    }
  }

  /** A match that ends inside `t` needs nothing beyond it. */
  lemma {:induction false} MatchShrinks(p: seq<Token>, t: string, y: string)
    requires Match(p, t + y).Some? && Match(p, t + y).value < |t|
    ensures Match(p, t) == Match(p, t + y)
    decreases |p|
  {
    if p != [] {
      hide IsDigit, IsSpace, Lower, DigitRun, SpaceRun;
      RunsShrink(t, y);
      var k := match p[0]
        case Lit(_) => 1
        case Digits => DigitRun(t + y)
        case _ => SpaceRun(t + y);
      DropAppend(t, y, k);
      assert Match(p[1..], (t + y)[k..]).Some?;
      MatchShrinks(p[1..], t[k..], y);
    }
  }

  /** In compact text, 18 characters decide whether an event starts here. */
  lemma AbsenceStable(t: string, y: string)
    requires IsCompact(t) && |t| >= 18 && EventAt(t).None?
    ensures EventAt(t + y).None?
  {
    forall e: Event ensures Match(PatternOf(e), t + y).None? {
      PatternShapes(e);
      if Match(PatternOf(e), t).Some? {
        EventUnique(e, t);
      }
      MismatchStable(PatternOf(e), t, y);
    }
    if EventAt(t + y).Some? {
      FoundMatches(t + y);
    }
  }

  /** No event starts inside another one. */
  lemma EventsDoNotNest(t: string, j: nat)
    requires EventAt(t).Some? && 0 < j < EventAt(t).value.length <= |t|
    ensures EventAt(t[j..]).None?
  {
    var f := EventAt(t).value;
    FoundMatches(t);
    PatternShapes(f.event);
    var p := PatternOf(f.event);
    TailHasNoUv(p[1..], t[1..], j - 1);
    assert t[1..][j - 1..] == t[j..];
    if EventAt(t[j..]).Some? {
      FoundMatches(t[j..]);
      EventUnique(EventAt(t[j..]).value.event, t[j..]);
    }
  }

  ghost predicate NoUv(p: seq<Token>) {
    forall i :: 0 <= i < |p| && p[i] == Lit('u') ==> i + 1 < |p| && p[i + 1].Lit? && p[i + 1].c != 'v'
  }

  lemma {:induction false} TailHasNoUv(p: seq<Token>, t: string, j: nat)
    requires NoUv(p) && Match(p, t).Some? && j < Match(p, t).value
    ensures !StartsUv(t[j..])
    decreases |p|
  {
    var k := match p[0]
      case Lit(_) => 1
      case Digits => DigitRun(t)
      case _ => SpaceRun(t);
    if j >= k {
      assert NoUv(p[1..]) by {
        forall i | 0 <= i < |p[1..]| && p[1..][i] == Lit('u')
          ensures i + 1 < |p[1..]| && p[1..][i + 1].Lit? && p[1..][i + 1].c != 'v'
        {
          assert p[i + 1] == Lit('u');
        }
      }
      TailHasNoUv(p[1..], t[k..], j - k);
      assert t[k..][j - k..] == t[j..];
    } else if p[0] == Lit('u') {
      assert Lower(t[1..][0]) == p[1..][0].c;
    }
  }

  // ---------------------------------------------------------------- scanning

  lemma {:induction false} RunSkips(t: string, a: nat, b: nat, r: Report)
    requires a <= b <= |t| && forall p :: a <= p < b ==> EventAt(t[p..]).None?
    ensures Run(t[a..], r) == Run(t[b..], r)
    decreases b - a
  {
    if a < b {
      assert t[a..][1..] == t[a + 1..];
      RunSkips(t, a + 1, b, r);
    }
  }

  lemma RunTakes(t: string, a: nat, r: Report)
    requires a <= |t| && EventAt(t[a..]).Some?
    ensures a + EventAt(t[a..]).value.length <= |t|
    ensures Run(t[a..], r) == Run(t[a + EventAt(t[a..]).value.length..], Apply(EventAt(t[a..]).value.event, r))
  {
    var f := EventAt(t[a..]).value;
    EventLength(t[a..]);
    assert t[a..][f.length..] == t[a + f.length..];
  }

  lemma {:induction false} ReportsGrow(t: string, r: Report)
    ensures Run(t, r).reports >= r.reports
    decreases |t|
  {
    if t != "" {
      match EventAt(t)
      case None => ReportsGrow(t[1..], r);
      case Some(f) =>
        EventLength(t);
        ReportsGrow(t[f.length..], Apply(f.event, r));
    }
  }

  /** Later text never takes a header away. */
  lemma {:induction false} HeadersGrow(a: string, b: string, r: Report)
    ensures Run(a + b, r).reports >= Run(a, r).reports
    decreases |a|
  {
    hide EventAt;
    if a == "" || (EventAt(a).None? && EventAt(a + b).Some?) {
      ReportsGrow(a + b, r);
      if a != "" {
        CutEvent(a, b, r);
      }
    } else {
      EventLength(a);
      EventLength(a + b);
      match EventAt(a)
      case None =>
        DropAppend(a, b, 1);
        HeadersGrow(a[1..], b, r);
      case Some(f) =>
        if f.event.Header? || f.length < |a| {
          EventStable(a, b);
          DropAppend(a, b, f.length);
          HeadersGrow(a[f.length..], b, Apply(f.event, r));
        } else {
          ReportsGrow(a + b, r);
        }
    }
  }

  /** An event that only the appended text completes leaves nothing to find in the text itself. */
  lemma CutEvent(a: string, b: string, r: Report)
    requires EventAt(a).None? && EventAt(a + b).Some?
    ensures Run(a, r) == r
  {
    var g := EventAt(a + b).value;
    EventLength(a + b);
    FoundMatches(a + b);
    if g.length < |a| {
      MatchShrinks(PatternOf(g.event), a, b);
      EventUnique(g.event, a);
    }
    forall j | 0 <= j < |a| ensures EventAt(a[j..]).None? {
      if j == 0 {
        assert a[0..] == a;
      } else {
        EventsDoNotNest(a + b, j);
        DropAppend(a, b, j);
        if EventAt(a[j..]).Some? {
          EventGrows(a[j..], b);
        }
      }
    }
    RunSkips(a, 0, |a|, r);
    assert a[0..] == a;
  }

  /** Compaction changes neither the events nor their order. */
  lemma {:induction false} RunCompact(t: string, r: Report)
    ensures Run(Compact(t), r) == Run(t, r)
    decreases |t|
  {
    if t != "" {
      var c := Compact(t);
      EventCompact(t);
      match EventAt(t)
      case Some(f) =>
        EventLength(t);
        RunCompact(t[f.length..], Apply(f.event, r));
      case None =>
        RunCompact(t[1..], r);
        if |t| > 1 && IsSpace(t[0]) && IsSpace(t[1]) {
          assert t[1..][SpaceRun(t[1..])..] == t[SpaceRun(t)..];
          assert c == Compact(t[1..]);
        } else {
          assert c[1..] == Compact(t[1..]) by {
            if IsSpace(t[0]) {
              SpaceRunUnique(t, 1);
            }
          }
        }
    }
  }

  lemma EventCompact(t: string)
    ensures EventAt(Compact(t)).Some? == EventAt(t).Some?
    ensures EventAt(t).Some? ==>
              && EventAt(Compact(t)).value.event == EventAt(t).value.event
              && EventAt(Compact(t)).value.length <= |Compact(t)| && EventAt(t).value.length <= |t|
              && Compact(t)[EventAt(Compact(t)).value.length..] == Compact(t[EventAt(t).value.length..])
  {
    EventLength(t);
    EventLength(Compact(t));
    if EventAt(t).Some? {
      EventCompactSame(EventAt(t).value.event, t);
    } else if EventAt(Compact(t)).Some? {
      var e := EventAt(Compact(t)).value.event;
      PatternShapes(e);
      MatchCompact(PatternOf(e), t);
      FoundMatches(Compact(t));
      EventUnique(e, t);
    }
  }

  lemma EventCompactSame(e: Event, t: string)
    requires EventAt(t).Some? && EventAt(t).value.event == e
    ensures EventAt(Compact(t)).Some? && EventAt(Compact(t)).value.event == e
    ensures EventAt(Compact(t)).value.length <= |Compact(t)| && EventAt(t).value.length <= |t|
    ensures Compact(t)[EventAt(Compact(t)).value.length..] == Compact(t[EventAt(t).value.length..])
  {
    var c := Compact(t);
    EventLength(t);
    PatternShapes(e);
    MatchCompact(PatternOf(e), t);
    FoundMatches(t);
    EventUnique(e, t);
    EventUnique(e, c);
    EventLength(c);
    if e.Count? {
      MatchEndsInDigit(PatternOf(e), t);
      var k, m := EventAt(t).value.length, EventAt(c).value.length;
      SplitCompact(t, k, m);
      DigitTailCompact(t[..k]);
    }
  }

  lemma SplitCompact(t: string, k: nat, m: nat)
    requires 0 < k <= |t| && !IsSpace(t[k - 1])
    requires m <= |Compact(t)| && Compact(t)[m..] == Compact(t[k..])
    ensures Compact(t)[..m] == Compact(t[..k])
  {
    hide Compact, IsSpace;
    var a, b := t[..k], t[k..];
    assert a + b == t && a[|a| - 1] == t[k - 1];
    CompactAppend(a, b);
    PrefixOf(Compact(a), Compact(b), m);
  }

  lemma PrefixOf(a: string, b: string, m: nat)
    requires m <= |a + b| && (a + b)[m..] == b
    ensures (a + b)[..m] == a
  {
    assert |(a + b)[m..]| == |a| + |b| - m;
  }

  lemma {:induction false} MatchEndsInDigit(p: seq<Token>, t: string)
    requires Match(p, t).Some? && p != [] && p[|p| - 1].Digits?
    ensures 0 < Match(p, t).value <= |t| && IsDigit(t[Match(p, t).value - 1])
    decreases |p|
  {
    if |p| > 1 {
      var k := match p[0]
        case Lit(_) => 1
        case Digits => DigitRun(t)
        case _ => SpaceRun(t);
      MatchEndsInDigit(p[1..], t[k..]);
    }
  }

  lemma {:induction false} MatchEndsSolid(p: seq<Token>, t: string)
    requires WellFormed(p) && Match(p, t).Some? && p != [] && (p[|p| - 1].Lit? || p[|p| - 1].Digits?)
    ensures 0 < Match(p, t).value <= |t| && !IsSpace(t[Match(p, t).value - 1])
    decreases |p|
  {
    if |p| == 1 {
      LastIsSolid(p[0], t);
    } else {
      WellFormedTail(p);
      hide WellFormed, IsSpace, Lower, DigitRun, SpaceRun;
      var k := match p[0]
        case Lit(_) => 1
        case Digits => DigitRun(t)
        case _ => SpaceRun(t);
      MatchEndsSolid(p[1..], t[k..]);
    }
  }

  lemma LastIsSolid(token: Token, t: string)
    requires WellFormed([token]) && Match([token], t).Some? && (token.Lit? || token.Digits?)
    ensures 0 < Match([token], t).value <= |t| && !IsSpace(t[Match([token], t).value - 1])
  {
    assert [token][0] == token && [token][1..] == [];
    if token.Lit? {
      assert Lower(t[0]) == token.c;
    }
  }

  /** An event never ends in whitespace. */
  lemma EventEndsSolid(t: string)
    requires EventAt(t).Some?
    ensures 0 < EventAt(t).value.length <= |t| && !IsSpace(t[EventAt(t).value.length - 1])
  {
    FoundMatches(t);
    PatternShapes(EventAt(t).value.event);
    MatchEndsSolid(PatternOf(EventAt(t).value.event), t);
  }

  lemma {:induction false} DigitTailCompact(s: string)
    ensures DigitTail(Compact(s)) == DigitTail(s)
    decreases |s|
  {
    if s != "" {
      var init, d := s[..|s| - 1], s[|s| - 1];
      if IsDigit(d) {
        assert s == init + [d];
        SnocCompact(init, d);
        DigitTailCompact(init);
        DigitTailSnoc(Compact(init), d);
      } else {
        LastOfCompact(s);
      }
    }
  }

  lemma DigitTailSnoc(s: string, d: char)
    requires IsDigit(d)
    ensures DigitTail(s + [d]) == DigitTail(s) + [d]
  {
    assert (s + [d])[..|s|] == s;
  }

  lemma SnocCompact(s: string, d: char)
    requires !IsSpace(d)
    ensures Compact(s + [d]) == Compact(s) + [d]
  {
    CompactAppend(s, [d]);
    SpaceRunUnique([d], 0);
    assert Compact([d]) == [d];
  }

  lemma {:induction false} LastOfCompact(s: string)
    requires s != ""
    ensures var c := Compact(s); c[|c| - 1] == if IsSpace(s[|s| - 1]) then ' ' else s[|s| - 1]
    decreases |s|
  {
    var n := if IsSpace(s[0]) then SpaceRun(s) else 1;
    CompactStep(s, n);
    if n < |s| {
      LastOfCompact(s[n..]);
    }
  }
}
