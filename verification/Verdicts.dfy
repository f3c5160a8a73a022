/** What the verdict of results.py says about a log, in terms of the places where events start in it
    and of the lines behind its last report header. */
module Verdicts {
  import opened Collections
  import opened Characters
  import opened Decimals
  import opened Wrappers
  import opened Text
  import opened UvmEvents
  import opened VcsResults

  // ---------------------------------------------------------------- the events of a text

  /** The events that start at position `i` or later, one for every position at which one starts. */
  function EventsFrom(t: string, i: nat): seq<Event>
    requires i <= |t|
    decreases |t| - i
  {
    if i == |t| then [] else
    var rest := EventsFrom(t, i + 1);
    var found := EventAt(t[i..]);
    if found.Some? then [found.value.event] + rest else rest
  }

  predicate IsCountOf(e: Event, n: Name) {
    e.Count? && e.name == n
  }

  /** `v` is the last count of `n`, and no header follows it. */
  ghost predicate IsLastCount(es: seq<Event>, n: Name, v: nat) {
    exists k :: 0 <= k < |es| && es[k] == Count(n, v)
      && forall j :: k < j < |es| ==> es[j] != Header && !IsCountOf(es[j], n)
  }

  ghost predicate IsCounted(es: seq<Event>, n: Name) {
    exists v :: IsLastCount(es, n, v)
  }

  /** `v` is the last count of `n` behind the last header, or 0 if there is none. */
  ghost predicate Tells(es: seq<Event>, n: Name, v: nat) {
    IsLastCount(es, n, v) || (v == 0 && !IsCounted(es, n))
  }

  function ApplyAll(es: seq<Event>, r: Report): Report {
    if es == [] then r else Apply(es[|es| - 1], ApplyAll(es[..|es| - 1], r))
  }

  lemma {:induction false} ApplyFirst(e: Event, es: seq<Event>, r: Report)
    ensures ApplyAll([e] + es, r) == ApplyAll(es, Apply(e, r))
    decreases |es|
  {
    if es == [] {
      assert [e] + es == [e] && [e][..0] == [];
    } else {
      assert ([e] + es)[..|es|] == [e] + es[..|es| - 1];
      ApplyFirst(e, es[..|es| - 1], r);
    }
  }

  lemma {:induction false} QuietEvents(t: string, a: nat, b: nat)
    requires a <= b <= |t| && forall p :: a <= p < b ==> EventAt(t[p..]).None?
    ensures EventsFrom(t, a) == EventsFrom(t, b)
    decreases b - a
  {
    if a < b {
      QuietEvents(t, a + 1, b);
    }
  }

  /** Scanning past each event misses none: events do not nest. */
  lemma {:induction false} RunIsEvents(t: string, i: nat, r: Report)
    requires i <= |t|
    ensures Run(t[i..], r) == ApplyAll(EventsFrom(t, i), r)
    decreases |t| - i
  {
    hide EventAt, Apply;
    if i < |t| {
      if EventAt(t[i..]).None? {
        assert t[i..][1..] == t[i + 1..];
        RunIsEvents(t, i + 1, r);
      } else {
        var f := EventAt(t[i..]).value;
        RunTakes(t, i, r);
        EventLength(t[i..]);
        forall p | i + 1 <= p < i + f.length ensures EventAt(t[p..]).None? {
          EventsDoNotNest(t[i..], p - i);
          assert t[i..][p - i..] == t[p..];
        }
        QuietEvents(t, i + 1, i + f.length);
        RunIsEvents(t, i + f.length, Apply(f.event, r));
        ApplyFirst(f.event, EventsFrom(t, i + 1), r);
      }
    }
  }

  lemma CountSnoc(es: seq<Event>, e: Event, n: Name, v: nat)
    ensures IsLastCount(es + [e], n, v) <==>
              e == Count(n, v) || (e != Header && !IsCountOf(e, n) && IsLastCount(es, n, v))
  {
    var all := es + [e];
    if e == Count(n, v) {
      assert all[|es|] == Count(n, v);
    } else if IsLastCount(all, n, v) {
      var k :| 0 <= k < |all| && all[k] == Count(n, v)
        && forall j :: k < j < |all| ==> all[j] != Header && !IsCountOf(all[j], n);
      assert all[|es|] == e;
      assert forall j :: k < j < |es| ==> all[j] == es[j];
      assert es[k] == Count(n, v);
    } else if IsLastCount(es, n, v) {
      var k :| 0 <= k < |es| && es[k] == Count(n, v)
        && forall j :: k < j < |es| ==> es[j] != Header && !IsCountOf(es[j], n);
      assert all[k] == Count(n, v);
      if e != Header && !IsCountOf(e, n) {
        assert forall j :: k < j < |all| ==> all[j] != Header && !IsCountOf(all[j], n);
      }
    }
  }

  lemma {:induction false} AppliedCounts(es: seq<Event>, n: Name)
    ensures var r := ApplyAll(es, INITIAL);
            && (forall v :: IsLastCount(es, n, v) <==> n in r.counts && r.counts[n] == v)
            && r.reports == Occurrences(Header, es)
            && (r.reports == 0 && r.counts == map[] <==> es == [])
    decreases |es|
  {
    hide IsLastCount;
    if es == [] {
      forall v ensures !IsLastCount(es, n, v) {
        NothingCounted(n, v);
      }
    } else {
      var init, e := es[..|es| - 1], es[|es| - 1];
      assert es == init + [e];
      AppliedCounts(init, n);
      forall v ensures IsLastCount(es, n, v) <==>
        n in ApplyAll(es, INITIAL).counts && ApplyAll(es, INITIAL).counts[n] == v {
        CountSnoc(init, e, n, v);
      }
      if e.Count? {
        assert e.name in ApplyAll(es, INITIAL).counts;
      }
    }
  }

  lemma NothingCounted(n: Name, v: nat)
    ensures !IsLastCount([], n, v)
  {
  }

  /** The report of a text: its headers are counted, and of each name the last count behind the last
      header is kept. */
  lemma ReportMeans(t: string, n: Name, v: nat)
    ensures var r, es := Run(t, UvmEvents.INITIAL), EventsFrom(t, 0);
            && r.reports == Occurrences(Header, es)
            && (IsLastCount(es, n, v) <==> n in r.counts && r.counts[n] == v)
            && (IsCounted(es, n) <==> n in r.counts)
            && (r.reports == 0 && r.counts == map[] <==> es == [])
  {
    hide IsLastCount;
    assert t[0..] == t;
    RunIsEvents(t, 0, UvmEvents.INITIAL);
    AppliedCounts(EventsFrom(t, 0), n);
    var r := Run(t, UvmEvents.INITIAL);
    if n in r.counts {
      assert IsLastCount(EventsFrom(t, 0), n, r.counts[n]);
    }
  }

  // ---------------------------------------------------------------- the lines behind the last header

  /** A diagnostic line ends at position `i`, up to which exactly `h` headers occur. */
  ghost predicate EndsLine(patterns: seq<seq<Token>>, x: string, i: nat, h: nat)
    requires i < |x|
  {
    x[i] == '\n' && IsDiagnostic(patterns, LastLine(x[..i])) && Occurrences(Header, EventsFrom(x[..i + 1], 0)) == h
  }

  ghost function LineEnds(patterns: seq<seq<Token>>, x: string, h: nat): set<nat> {
    set i: nat | i < |x| && EndsLine(patterns, x, i, h)
  }

  lemma SameEnds(patterns: seq<seq<Token>>, x: string, n: nat, i: nat, h: nat)
    requires i < n <= |x|
    ensures EndsLine(patterns, x[..n], i, h) == EndsLine(patterns, x, i, h)
  {
    assert x[..n][..i] == x[..i] && x[..n][..i + 1] == x[..i + 1];
  }

  lemma LastEnds(patterns: seq<seq<Token>>, x: string, h: nat)
    requires x != ""
    ensures var init := x[..|x| - 1];
            EndsLine(patterns, x, |init|, h)
            <==> x[|x| - 1] == '\n' && Headers(x) == h && IsDiagnostic(patterns, LastLine(init))
  {
    hide Run, EventsFrom, IsDiagnostic, LastLine;
    ReportMeans(x, FATAL, 0);
    assert x[..|x|] == x;
  }

  lemma {:induction false} DiagnosticsAreLines(patterns: seq<seq<Token>>, x: string, h: nat)
    ensures Diagnostics(patterns, x, h) == |LineEnds(patterns, x, h)|
    decreases |x|
  {
    hide IsDiagnostic, EndsLine, LastLine, Headers;
    if x == "" {
      assert LineEnds(patterns, x, h) == {};
    } else {
      var init := x[..|x| - 1];
      DiagnosticsAreLines(patterns, init, h);
      LastEnds(patterns, x, h);
      forall i: nat | i < |init| ensures EndsLine(patterns, init, i, h) == EndsLine(patterns, x, i, h) {
        SameEnds(patterns, x, |init|, i, h);
      }
      var last := if EndsLine(patterns, x, |init|, h) then {|init|} else {};
      assert LineEnds(patterns, x, h) == LineEnds(patterns, init, h) + last;
    }
  }

  /** The diagnostic lines that end behind the last report header. */
  ghost function LastLines(patterns: seq<seq<Token>>, x: string): set<nat> {
    LineEnds(patterns, x, Occurrences(Header, EventsFrom(x, 0)))
  }

  // ---------------------------------------------------------------- the verdict

  /** A log is fatal if its last FATAL count and the fatal lines behind its last header are together
      positive, faulty if the same holds of ERROR and it is not fatal, and otherwise passes unless it
      holds a report that lacks one of the two counts. */
  lemma VerdictMeans(text: string, fatalCount: nat, errorCount: nat)
    requires Tells(EventsFrom(text + "\n", 0), FATAL, fatalCount)
    requires Tells(EventsFrom(text + "\n", 0), ERROR, errorCount)
    ensures var x := text + "\n";
            var es := EventsFrom(x, 0);
            var fatals := fatalCount + |LastLines(FATAL_LINES, x)|;
            var errors := errorCount + |LastLines(ERROR_LINES, x)|;
            var incomplete := es != [] && !(IsCounted(es, FATAL) && IsCounted(es, ERROR));
            && (Verdict(text) == Ok((Fatals, fatals)) <==> fatals > 0)
            && (Verdict(text) == Ok((Errors, errors)) <==> fatals == 0 && errors > 0)
            && (Verdict(text) == Err(IncompleteReport) <==> fatals == 0 && errors == 0 && incomplete)
            && (Verdict(text) == Ok((Passed, 0)) <==> fatals == 0 && errors == 0 && !incomplete)
  {
    hide Run, EventsFrom, IsLastCount, IsCounted, Diagnostics, FATAL_LINES, ERROR_LINES, LineEnds;
    var x := text + "\n";
    var r := Run(x, UvmEvents.INITIAL);
    ReportMeans(x, FATAL, fatalCount);
    ReportMeans(x, ERROR, errorCount);
    DiagnosticsAreLines(FATAL_LINES, x, r.reports);
    DiagnosticsAreLines(ERROR_LINES, x, r.reports);
  }

  /** Of every log exactly one pair of counts is told. */
  lemma CountsAreTold(es: seq<Event>, n: Name) returns (v: nat)
    ensures Tells(es, n, v) && forall u :: Tells(es, n, u) ==> u == v
  {
    hide IsLastCount;
    AppliedCounts(es, n);
    var r := ApplyAll(es, UvmEvents.INITIAL);
    v := if n in r.counts then r.counts[n] else 0;
    if n in r.counts {
      assert IsLastCount(es, n, v);
    }
  }

  /** A count is read as the number that it writes. */
  lemma {:induction false} CountIsRead(n: nat)
    ensures (forall i :: 0 <= i < |Decimal(n)| ==> IsDigit(Decimal(n)[i])) && ToNat(Decimal(n)) == n
  {
    hide IsDigit, Digit;
    if n >= 10 {
      CountIsRead(n / 10);
      DigitIsRead(Decimal(n / 10), n % 10);
    } else {
      DigitIsRead("", n);
      assert "" + [Digit(n)] == [Digit(n)];
    }
  }

  lemma DigitIsRead(s: string, d: nat)
    requires d < 10 && forall i :: 0 <= i < |s| ==> IsDigit(s[i])
    ensures var t := s + [Digit(d)]; (forall i :: 0 <= i < |t| ==> IsDigit(t[i])) && ToNat(t) == 10 * ToNat(s) + d
  {
    var t := s + [Digit(d)];
    assert t[..|t| - 1] == s;
  }

  // ---------------------------------------------------------------- diagnostic lines

  /** `t` begins with `word`, in whatever case; `word` is written in lower case. */
  predicate BeginsWith(t: string, word: string) {
    |word| <= |t| && forall i :: 0 <= i < |word| ==> Lower(t[i]) == word[i]
  }

  lemma BeginsStep(t: string, word: string)
    requires word != ""
    ensures BeginsWith(t, word) <==> t != "" && Lower(t[0]) == word[0] && BeginsWith(t[1..], word[1..])
  {
    hide Lower;
    if t != "" && Lower(t[0]) == word[0] && BeginsWith(t[1..], word[1..]) {
      forall i | 0 <= i < |word| ensures Lower(t[i]) == word[i] {
        assert i > 0 ==> Lower(t[1..][i - 1]) == word[1..][i - 1];
      }
    }
  }

  lemma {:induction false} LitsMatch(word: string, t: string, rest: seq<Token>)
    ensures var m := Match(Lits(word) + rest, t);
            if BeginsWith(t, word) then m == Shift(|word|, Match(rest, t[|word|..])) else m.None?
    decreases |word|
  {
    hide Lower, BeginsWith;
    var p := Lits(word) + rest;
    if word == "" {
      assert p == rest && t[0..] == t;
      BeginsWithNothing(t);
    } else {
      BeginsStep(t, word);
      assert p[1..] == Lits(word[1..]) + rest && p[0] == Lit(word[0]);
      if t != "" && Lower(t[0]) == word[0] {
        LitsMatch(word[1..], t[1..], rest);
        BeginsLength(t, word);
        assert |word| <= |t| ==> t[1..][|word| - 1..] == t[|word|..];
      }
    }
  }

  lemma BeginsWithNothing(t: string)
    ensures BeginsWith(t, "")
  {
  }

  lemma BeginsLength(t: string, word: string)
    ensures BeginsWith(t, word) ==> |word| <= |t|
  {
  }

  /** `t` begins with `word`, any blanks, and a colon. */
  predicate BeginsWithColon(t: string, word: string) {
    BeginsWith(t, word) && var rest := t[|word|..]; SpaceRun(rest) < |rest| && rest[SpaceRun(rest)] == ':'
  }

  lemma WordMatches(word: string, t: string)
    ensures Match(Lits(word), t).Some? <==> BeginsWith(t, word)
    ensures Match(Lits(word) + [Gap, Lit(':')], t).Some? <==> BeginsWithColon(t, word)
  {
    LitsMatch(word, t, []);
    assert Lits(word) + [] == Lits(word);
    LitsMatch(word, t, [Gap, Lit(':')]);
    if BeginsWith(t, word) {
      ColonMatches(t[|word|..]);
    }
  }

  lemma ColonMatches(t: string)
    ensures Match([Gap, Lit(':')], t).Some? <==> SpaceRun(t) < |t| && t[SpaceRun(t)] == ':'
  {
    var rest := t[SpaceRun(t)..];
    assert [Gap, Lit(':')][1..] == [Lit(':')] && [Lit(':')][1..] == [];
    ColonIsColon();
    if rest != "" {
      assert Match([Lit(':')], rest) == if Lower(rest[0]) == ':' then Shift(1, Match([], rest[1..])) else None;
      assert Lower(rest[0]) == ':' <==> rest[0] == ':';
    }
  }

  lemma ColonIsColon()
    ensures forall c: char :: Lower(c) == ':' <==> c == ':'
  {
  }

  /** The lines that count as fatal and as errors, whatever blanks they begin with. */
  lemma DiagnosticMeans(line: string)
    ensures var t := StripLeft(line);
            && (IsDiagnostic(FATAL_LINES, line) <==>
                  BeginsWith(t, "fatal-") || BeginsWithColon(t, "fatal")
                  || BeginsWith(t, "error-[noa]") || BeginsWith(t, "*f,"))
            && (IsDiagnostic(ERROR_LINES, line) <==>
                  BeginsWith(t, "error-") || BeginsWithColon(t, "error") || BeginsWith(t, "*e,"))
  {
    hide Match, BeginsWith, BeginsWithColon, StripLeft;
    var t := StripLeft(line);
    WordMatches("fatal-", t);
    WordMatches("fatal", t);
    WordMatches("error-[noa]", t);
    WordMatches("*f,", t);
    WordMatches("error-", t);
    WordMatches("error", t);
    WordMatches("*e,", t);
    assert |FATAL_LINES| == 4 && |ERROR_LINES| == 3;
    assert FATAL_LINES[0] == Lits("fatal-") && FATAL_LINES[1] == Lits("fatal") + [Gap, Lit(':')]
      && FATAL_LINES[2] == Lits("error-[noa]") && FATAL_LINES[3] == Lits("*f,");
    assert ERROR_LINES[0] == Lits("error-") && ERROR_LINES[1] == Lits("error") + [Gap, Lit(':')]
      && ERROR_LINES[2] == Lits("*e,");
  }

  // ---------------------------------------------------------------- several logs

  /** The worst of several verdicts is fatal if one is, else errors if one is, and otherwise passed. */
  lemma WorstMeans(s: Status, vs: seq<VcsResults.Outcome>)
    requires IsWorst(s, vs)
    ensures s == Fatals <==> exists i :: 0 <= i < |vs| && vs[i].Ok? && vs[i].value.0 == Fatals
    ensures s == Passed <==> forall i :: 0 <= i < |vs| ==> vs[i].Ok? && vs[i].value.0 == Passed
  {
    if s == Passed {
      forall i | 0 <= i < |vs| ensures vs[i].Ok? && vs[i].value.0 == Passed {
        assert Severity(vs[i].value.0) <= Severity(s);
      }
    }
    forall i | 0 <= i < |vs| && vs[i].Ok? && vs[i].value.0 == Fatals ensures s == Fatals {
      assert Severity(vs[i].value.0) <= Severity(s);
    }
  }

  /** A log counts only if its capture is complete, and then as its text says. */
  lemma VerdictOfMeans(log: Log)
    ensures VerdictOf(log) == if log.usable then Verdict(Concat(log.chunks)) else Err(UnusableLog)
  {
  }
}
