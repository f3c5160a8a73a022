/** results.py, `evaluate_vcs_chunks` and `evaluate_vcs_logs`: the verdict on complete logs. */
module VcsResults {
  import opened Characters
  import opened Collections
  import opened Wrappers
  import opened Text
  import opened UvmEvents
  import opened SummaryScan

  datatype Status = Passed | Errors | Fatals

  datatype Failure = FieldTooLong | IncompleteReport | UnusableLog

  type Outcome = Result<(Status, nat), Failure>

  // ---------------------------------------------------------------- diagnostic lines

  // The bodies of `_FATAL` and `_ERROR`.  A trailing `\s*` cannot change whether they match.
  const FATAL_LINES: seq<seq<Token>> := [
    Lits("fatal-"), Lits("fatal") + [Gap, Lit(':')], Lits("error-[noa]"), Lits("*f,")]
  const ERROR_LINES: seq<seq<Token>> := [Lits("error-"), Lits("error") + [Gap, Lit(':')], Lits("*e,")]

  function StripLeft(t: string): string {
    t[SpaceRun(t)..]
  }

  /** `^\s*(?:...)` */
  predicate IsDiagnostic(patterns: seq<seq<Token>>, line: string) {
    exists i :: 0 <= i < |patterns| && Match(patterns[i], StripLeft(line)).Some?
  }

  /** The text after the last newline. */
  function LastLine(x: string): string {
    if x == "" || x[|x| - 1] == '\n' then "" else LastLine(x[..|x| - 1]) + [x[|x| - 1]]
  }

  function Headers(x: string): nat {
    Run(x, INITIAL).reports
  }

  /** The diagnostic lines of `x` that end where exactly `h` report headers have been completed. */
  function Diagnostics(patterns: seq<seq<Token>>, x: string, h: nat): nat {
    if x == "" then 0 else
    var init := x[..|x| - 1];
    Diagnostics(patterns, init, h)
    + if x[|x| - 1] == '\n' && Headers(x) == h && IsDiagnostic(patterns, LastLine(init)) then 1 else 0
  }

  // ---------------------------------------------------------------- the meaning of a log

  function CountOf(r: Report, n: Name): nat {
    if n in r.counts then r.counts[n] else 0
  }

  /** The verdict of one report, given the diagnostic lines after its header. */
  function Judge(r: Report, fatal: nat, error: nat): Outcome {
    if CountOf(r, FATAL) != 0 || fatal != 0 then Ok((Fatals, CountOf(r, FATAL) + fatal))
    else if CountOf(r, ERROR) != 0 || error != 0 then Ok((Errors, CountOf(r, ERROR) + error))
    else if (r.reports != 0 || r.counts != map[]) && !(ERROR in r.counts && FATAL in r.counts)
      then Err(IncompleteReport)
    else Ok((Passed, 0))
  }

  /** The verdict on a complete text: the counts of its last report together with the
      diagnostic lines that end after that report's header. */
  function Verdict(text: string): Outcome {
    var x := text + "\n";
    var r := Run(x, INITIAL);
    Judge(r, Diagnostics(FATAL_LINES, x, r.reports), Diagnostics(ERROR_LINES, x, r.reports))
  }

  /** Some count field of `text`, with its whitespace compacted, exceeds 4096 characters. */
  ghost predicate HasLongField(text: string) {
    exists i :: LongFieldAt(Compact(text), i)
  }

  // ---------------------------------------------------------------- bounded line prefixes

  /** What the evaluator keeps of an unfinished line. */
  function LinePrefix(line: string): string {
    Take(StripLeft(Compact(line)), TAIL)
  }

  ghost predicate DiagnosticShape(patterns: seq<seq<Token>>) {
    forall i :: 0 <= i < |patterns| ==>
      WellFormed(patterns[i]) && 0 < |patterns[i]| <= TAIL && patterns[i][|patterns[i]| - 1].Lit?
  }

  lemma DiagnosticShapes()
    ensures DiagnosticShape(FATAL_LINES) && DiagnosticShape(ERROR_LINES)
  {
    hide DiagnosticShape;
    FatalShape();
    ErrorShape();
  }

  lemma FatalShape()
    ensures DiagnosticShape(FATAL_LINES)
  {
    assert |"fatal-"| == 6 && |"fatal"| == 5 && |"error-[noa]"| == 11 && |"*f,"| == 3;
  }

  lemma ErrorShape()
    ensures DiagnosticShape(ERROR_LINES)
  {
    assert |"error-"| == 6 && |"error"| == 5 && |"*e,"| == 3;
  }

  lemma StripIsCompact(line: string)
    ensures StripLeft(Compact(line)) == Compact(StripLeft(line))
    ensures IsCompact(Compact(StripLeft(line))) && SpaceRun(Compact(StripLeft(line))) == 0
  {
    var c, k := Compact(line), SpaceRun(line);
    CompactIsCompact(line);
    CompactIsCompact(line[k..]);
    assert line[0..] == line && c[0..] == c;
    if line != "" && k > 0 {
      CompactStep(line, k);
      assert c[1..] == Compact(line[k..]);
      SpaceRunUnique(c, 1);
    }
  }

  /** The kept prefix decides whether the line is a diagnostic. */
  lemma PrefixDecides(patterns: seq<seq<Token>>, line: string)
    requires DiagnosticShape(patterns)
    ensures IsDiagnostic(patterns, LinePrefix(line)) == IsDiagnostic(patterns, line)
  {
    var s := StripLeft(line);
    var c := Compact(s);
    var u := Take(c, TAIL);
    StripIsCompact(line);
    SpaceRunUnique(u, 0);
    assert StripLeft(u) == u;
    forall i | 0 <= i < |patterns| ensures Match(patterns[i], u).Some? == Match(patterns[i], s).Some? {
      MatchCompact(patterns[i], s);
      if |c| > TAIL {
        var y := c[TAIL..];
        assert c == u + y;
        assert IsCompact(u);
        if Match(patterns[i], u).Some? {
          MatchStable(patterns[i], u, y);
        } else {
          MismatchStable(patterns[i], u, y);
        }
      }
    }
  }

  /** Extending the kept prefix by a compacted segment equals keeping the prefix of the longer line. */
  lemma PrefixExtends(line: string, segment: string)
    ensures Take(StripLeft(Compact(LinePrefix(line) + Compact(segment))), TAIL) == LinePrefix(line + segment)
  {
    hide Compact, IsSpace, SpaceRun;
    var p := LinePrefix(line);
    var full := Compact(StripLeft(line));
    StripIsCompact(line);
    StripIsCompact(p + segment);
    StripIsCompact(line + segment);
    CompactAbsorbs(p, segment);
    if full == "" {
      assert p == "" && p + segment == segment;
      StripBlank(line, segment);
    } else {
      StripAppend(line, segment);
      assert !IsSpace(p[0]);
      SpaceRunUnique(p + segment, 0);
      assert StripLeft(p + segment) == p + segment;
      CompactAppend(StripLeft(line), segment);
      CompactAppend(p, segment);
      assert IsCompact(p);
      CompactOfCompact(p);
      if |full| <= TAIL {
        CompactIsCompact(StripLeft(line));
      }
    }
  }

  lemma StripBlank(line: string, segment: string)
    requires StripLeft(line) == ""
    ensures StripLeft(line + segment) == StripLeft(segment)
  {
    SpaceRunUnique(line + segment, |line| + SpaceRun(segment));
    assert (line + segment)[|line| + SpaceRun(segment)..] == segment[SpaceRun(segment)..];
  }

  lemma StripAppend(line: string, segment: string)
    requires StripLeft(line) != ""
    ensures StripLeft(line + segment) == StripLeft(line) + segment
  {
    SpaceRunUnique(line + segment, SpaceRun(line));
    DropAppend(line, segment, SpaceRun(line));
  }

  // ---------------------------------------------------------------- lines and chunks

  predicate OneLine(s: string) {
    '\n' !in s
  }

  lemma {:induction false} LastLineExtends(x: string, s: string)
    requires OneLine(s)
    ensures LastLine(x + s) == LastLine(x) + s
    decreases |s|
  {
    if s == "" {
      assert x + s == x;
    } else {
      var init := s[..|s| - 1];
      assert (x + s)[..|x + s| - 1] == x + init;
      LastLineExtends(x, init);
      assert LastLine(x) + init + [s[|s| - 1]] == LastLine(x) + s;
    }
  }

  lemma {:induction false} DiagnosticsExtend(patterns: seq<seq<Token>>, x: string, s: string, h: nat)
    requires OneLine(s)
    ensures Diagnostics(patterns, x + s, h) == Diagnostics(patterns, x, h)
    decreases |s|
  {
    if s == "" {
      assert x + s == x;
    } else {
      var init := s[..|s| - 1];
      assert (x + s)[..|x + s| - 1] == x + init;
      DiagnosticsExtend(patterns, x, init, h);
    }
  }

  /** No line can have ended after more headers than the text holds. */
  lemma {:induction false} DiagnosticsAbove(patterns: seq<seq<Token>>, x: string, above: nat)
    requires Headers(x) < above
    ensures Diagnostics(patterns, x, above) == 0
    decreases |x|
  {
    if x != "" {
      var init, last := x[..|x| - 1], [x[|x| - 1]];
      assert x == init + last;
      HeadersGrow(init, last, INITIAL);
      DiagnosticsAbove(patterns, init, above);
    }
  }

  /** `chunk.split("\n")` */
  function Split(chunk: string): (parts: seq<string>)
    ensures |parts| > 0 && forall i :: 0 <= i < |parts| ==> OneLine(parts[i])
    ensures Lines(parts[..|parts| - 1]) + parts[|parts| - 1] == chunk
  {
    if chunk == "" then [""]
    else
      var rest := Split(chunk[1..]);
      if chunk[0] == '\n' then SplitNewline(rest); [""] + rest
      else SplitCharacter(chunk[0], rest); [[chunk[0]] + rest[0]] + rest[1..]
  }

  /** The parts, each with its newline. */
  function Lines(parts: seq<string>): string {
    if parts == [] then "" else parts[0] + "\n" + Lines(parts[1..])
  }

  lemma SplitNewline(rest: seq<string>)
    requires |rest| > 0
    ensures Lines(([""] + rest)[..|rest|]) + rest[|rest| - 1] == "\n" + (Lines(rest[..|rest| - 1]) + rest[|rest| - 1])
  {
    assert ([""] + rest)[..|rest|] == [""] + rest[..|rest| - 1];
    assert ([""] + rest[..|rest| - 1])[1..] == rest[..|rest| - 1];
    assert "" + "\n" == "\n";
  }

  lemma SplitCharacter(c: char, rest: seq<string>)
    requires |rest| > 0
    ensures var parts := [[c] + rest[0]] + rest[1..];
            Lines(parts[..|parts| - 1]) + parts[|parts| - 1] == [c] + (Lines(rest[..|rest| - 1]) + rest[|rest| - 1])
  {
    var parts := [[c] + rest[0]] + rest[1..];
    if |rest| > 1 {
      assert parts[..|parts| - 1][1..] == rest[..|rest| - 1][1..];
      var tail := Lines(rest[..|rest| - 1][1..]);
      assert [c] + rest[0] + "\n" + tail == [c] + (rest[0] + "\n" + tail);
    }
  }

  lemma {:induction false} LinesSnoc(parts: seq<string>, n: nat)
    requires n < |parts|
    ensures Lines(parts[..n + 1]) == Lines(parts[..n]) + (parts[n] + "\n")
    decreases n
  {
    if n > 0 {
      assert parts[..n + 1][1..] == parts[1..][..n] && parts[..n][1..] == parts[1..][..n - 1];
      LinesSnoc(parts[1..], n - 1);
      var head := parts[0] + "\n";
      assert head + (Lines(parts[1..][..n - 1]) + (parts[n] + "\n"))
        == head + Lines(parts[1..][..n - 1]) + (parts[n] + "\n");
    } else {
      assert parts[..1][1..] == [] && parts[..0] == [];
      assert parts[0] + "\n" + "" == parts[0] + "\n";
    }
  }

  // ---------------------------------------------------------------- the streaming evaluator

  /** The buffer and the report so far stand for the whole text `x`. */
  ghost predicate Buffered(x: string, pending: string, r: Report) {
    && IsCompact(pending) && |pending| <= PENDING_LIMIT
    && EndsInSpace(pending) == EndsInSpace(x)
    && IsSuffix(pending, Compact(x))
    && (forall z: string :: Run(x + z, INITIAL) == Run(pending + z, r))
    && r.reports == Headers(x)
  }

  ghost predicate IsSuffix(s: string, t: string) {
    exists b :: 0 <= b <= |t| && s == t[b..]
  }

  lemma BufferedStart()
    ensures Buffered("", "", INITIAL)
  {
    assert ""[0..] == "";
  }

  lemma BufferedFeeds(x: string, w: string, p0: string, r0: Report, p1: string, r1: Report)
    requires Buffered(x, p0, r0) && FeedSpec(p0, w, false, r0, p1, r1)
    requires IsCompact(p1) && |p1| <= PENDING_LIMIT && IsSuffix(p1, Compact(p0 + w))
    ensures Buffered(x + w, p1, r1)
  {
    hide Run, Compact, IsSpace, IsCompact, INITIAL, IsSuffix;
    forall z: string ensures Run(x + w + z, INITIAL) == Run(p1 + z, r1) {
      FeedStep(x, w, z, p0, r0, p1, r1);
    }
    FeedStep(x, w, "", p0, r0, p1, r1);
    assert x + w + "" == x + w && p1 + "" == p1;
    SuffixFeeds(x, w, p0);
    SuffixTransitive(p1, Compact(p0 + w), Compact(x + w));
  }

  lemma FeedStep(x: string, w: string, z: string, p0: string, r0: Report, p1: string, r1: Report)
    requires Buffered(x, p0, r0) && FeedSpec(p0, w, false, r0, p1, r1)
    ensures Run(x + w + z, INITIAL) == Run(p1 + z, r1)
  {
    hide Run, Compact, IsSpace, IsCompact, INITIAL, IsSuffix;
    Associative(x, w, z);
    Associative(p0, w, z);
    assert Run(x + (w + z), INITIAL) == Run(p0 + (w + z), r0);
  }

  lemma SuffixFeeds(x: string, w: string, p: string)
    requires IsCompact(p) && IsSuffix(p, Compact(x)) && EndsInSpace(p) == EndsInSpace(x)
    ensures IsSuffix(Compact(p + w), Compact(x + w))
  {
    hide Compact, IsSpace, IsCompact, Glue;
    CompactAppend(x, w);
    CompactAppend(p, w);
    CompactOfCompact(p);
    var g := Glue(EndsInSpace(x), Compact(w));
    var b :| 0 <= b <= |Compact(x)| && p == Compact(x)[b..];
    DropAppend(Compact(x), g, b);
  }

  lemma SuffixTransitive(a: string, b: string, c: string)
    requires IsSuffix(a, b) && IsSuffix(b, c)
    ensures IsSuffix(a, c)
  {
    var i :| 0 <= i <= |b| && a == b[i..];
    var j :| 0 <= j <= |c| && b == c[j..];
    assert c[j..][i..] == c[j + i..];
  }

  lemma LongFieldInSuffix(s: string, t: string, i: nat)
    requires IsSuffix(s, t) && LongFieldAt(s, i)
    ensures exists k :: LongFieldAt(t, k)
  {
    var b :| 0 <= b <= |t| && s == t[b..];
    assert t[b..][i..] == t[b + i..];
    assert LongFieldAt(t, b + i);
  }

  /** A log keeps the long fields of its beginning. */
  lemma LongFieldGrows(x: string, y: string)
    requires HasLongField(x)
    ensures HasLongField(x + y)
  {
    hide Compact, EventAt, Glue;
    var c := Compact(x);
    var g := Glue(EndsInSpace(x), Compact(y));
    var i: nat :| LongFieldAt(c, i);
    CompactAppend(x, y);
    DropAppend(c, g, i);
    EventGrows(c[i..], g);
    assert LongFieldAt(Compact(x + y), i);
  }

  /** All that the evaluator knows after the text `x`. */
  ghost predicate Evaluated(x: string, reports: nat, fatal: nat, error: nat, prefix: string) {
    && reports == Headers(x)
    && fatal == Diagnostics(FATAL_LINES, x, reports)
    && error == Diagnostics(ERROR_LINES, x, reports)
    && prefix == LinePrefix(LastLine(x))
  }

  /** The count that survives when the number of headers goes from `r0` to `r1`. */
  function Kept(r0: nat, r1: nat, n: nat): nat {
    if r0 != r1 then 0 else n
  }

  lemma KeptDiagnostics(patterns: seq<seq<Token>>, x: string, r0: nat, r1: nat, n: nat)
    requires r0 == Headers(x) <= r1 && n == Diagnostics(patterns, x, r0)
    ensures Diagnostics(patterns, x, r1) == Kept(r0, r1, n)
  {
    if r0 != r1 {
      DiagnosticsAbove(patterns, x, r1);
    }
  }

  /** A header completed by `segment` discards the diagnostics counted so far. */
  lemma SegmentEvaluated(x: string, segment: string, r0: nat, r1: nat, fatal: nat, error: nat, prefix: string)
    requires Evaluated(x, r0, fatal, error, prefix) && OneLine(segment) && r1 == Headers(x + segment)
    ensures r0 <= r1
    ensures Evaluated(x + segment, r1, Kept(r0, r1, fatal), Kept(r0, r1, error),
                      Take(StripLeft(Compact(prefix + Compact(segment))), TAIL))
  {
    hide LinePrefix, IsDiagnostic, Run;
    HeadersGrow(x, segment, INITIAL);
    KeptDiagnostics(FATAL_LINES, x, r0, r1, fatal);
    KeptDiagnostics(ERROR_LINES, x, r0, r1, error);
    LastLineExtends(x, segment);
    DiagnosticsExtend(FATAL_LINES, x, segment, r1);
    DiagnosticsExtend(ERROR_LINES, x, segment, r1);
    PrefixExtends(LastLine(x), segment);
  }

  function Bit(b: bool): nat {
    if b then 1 else 0
  }

  /** The end of a line counts the line if it is a diagnostic. */
  lemma LineEvaluated(x: string, r0: nat, r1: nat, fatal: nat, error: nat, prefix: string)
    requires Evaluated(x, r0, fatal, error, prefix) && r1 == Headers(x + "\n")
    ensures r0 <= r1
    ensures Evaluated(x + "\n", r1, Kept(r0, r1, fatal) + Bit(IsDiagnostic(FATAL_LINES, prefix)),
                      Kept(r0, r1, error) + Bit(IsDiagnostic(ERROR_LINES, prefix)), "")
  {
    hide IsDiagnostic, Run, FATAL_LINES, ERROR_LINES, LinePrefix;
    var w := x + "\n";
    assert w[..|w| - 1] == x && w[|w| - 1] == '\n';
    HeadersGrow(x, "\n", INITIAL);
    KeptDiagnostics(FATAL_LINES, x, r0, r1, fatal);
    KeptDiagnostics(ERROR_LINES, x, r0, r1, error);
    DiagnosticShapes();
    PrefixDecides(FATAL_LINES, LastLine(x));
    PrefixDecides(ERROR_LINES, LastLine(x));
    EmptyPrefix();
  }

  lemma EmptyPrefix()
    ensures LinePrefix("") == ""
  {
    assert StripLeft("") == "";
  }

  lemma Consumed(x: string, segment: string, endLine: bool, r0: nat, r1: nat, fatal: nat, error: nat, prefix: string)
    requires Evaluated(x, r0, fatal, error, prefix) && OneLine(segment)
    requires r1 == Headers(x + (segment + LineEnd(endLine)))
    ensures var p := Take(StripLeft(Compact(prefix + Compact(segment))), TAIL);
            Evaluated(x + (segment + LineEnd(endLine)), r1,
                      Kept(r0, r1, fatal) + Bit(endLine && IsDiagnostic(FATAL_LINES, p)),
                      Kept(r0, r1, error) + Bit(endLine && IsDiagnostic(ERROR_LINES, p)),
                      if endLine then "" else p)
  {
    hide Evaluated, Headers, IsDiagnostic, Compact, StripLeft, OneLine;
    var p := Take(StripLeft(Compact(prefix + Compact(segment))), TAIL);
    var mid := Headers(x + segment);
    SegmentEvaluated(x, segment, r0, mid, fatal, error, prefix);
    if endLine {
      assert x + (segment + "\n") == x + segment + "\n";
      LineEvaluated(x + segment, mid, r1, Kept(r0, mid, fatal), Kept(r0, mid, error), p);
    } else {
      assert segment + "" == segment;
    }
  }

  function LineEnd(endLine: bool): string {
    if endLine then "\n" else ""
  }

  class Evaluation {
    const summary: Scan
    var fatal: nat
    var error: nat
    var prefix: string
    var lastReports: nat
    ghost var text: string

    ghost predicate Valid()
      reads this, summary
    {
      && Buffered(text, summary.pending, summary.Result())
      && Evaluated(text, lastReports, fatal, error, prefix)
    }

    constructor ()
      ensures Valid() && text == "" && fresh(summary)
    {
      fatal, error, prefix, lastReports, text := 0, 0, "", 0, "";
      summary := new Scan();
      new;
      BufferedStart();
      EmptyPrefix();
    }

    /** Takes one segment of a line, and the end of that line if `endLine`. */
    method Consume(segment: string, endLine: bool) returns (ok: bool)
      requires Valid() && OneLine(segment)
      modifies this, summary
      ensures text == old(text) + (segment + LineEnd(endLine))
      ensures ok ==> Valid()
      ensures !ok ==> HasLongField(text)
    {
      hide Buffered, Evaluated, FeedSpec, HasLongField, IsDiagnostic, OneLine, Compact, IsCompact, Headers, StripLeft;
      BufferedCompact(text, summary.pending, summary.Result());
      ghost var p0, r0 := summary.pending, summary.Result();
      ok := summary.Feed(segment + LineEnd(endLine), false);
      text := text + (segment + LineEnd(endLine));
      if !ok {
        LongFieldFound(old(text), segment + LineEnd(endLine), p0, r0);
        return;
      }
      BufferedFeeds(old(text), segment + LineEnd(endLine), p0, r0, summary.pending, summary.Result()) by {
        assert IsSuffix(summary.pending, Compact(p0 + (segment + LineEnd(endLine))));
      }
      BufferedCompact(text, summary.pending, summary.Result());
      Consumed(old(text), segment, endLine, lastReports, summary.reports, fatal, error, prefix);
      if summary.reports != lastReports {
        fatal, error := 0, 0;
        lastReports := summary.reports;
      }
      prefix := Take(StripLeft(Compact(prefix + Compact(segment))), TAIL);
      if endLine {
        fatal := fatal + Bit(IsDiagnostic(FATAL_LINES, prefix));
        error := error + Bit(IsDiagnostic(ERROR_LINES, prefix));
        prefix := "";
      }
    }
  }

  lemma BufferedCompact(x: string, pending: string, r: Report)
    requires Buffered(x, pending, r)
    ensures IsCompact(pending) && r.reports == Headers(x)
  {
  }

  lemma LongFieldFound(x: string, w: string, p: string, r: Report)
    requires Buffered(x, p, r) && exists i :: LongFieldAt(Compact(p + w), i)
    ensures HasLongField(x + w)
  {
    hide Compact, LongFieldAt, Run;
    var i :| LongFieldAt(Compact(p + w), i);
    SuffixFeeds(x, w, p);
    LongFieldInSuffix(Compact(p + w), Compact(x + w), i);
  }

  lemma LongFieldPrefix(x: string, whole: string)
    requires x <= whole && HasLongField(x)
    ensures HasLongField(whole)
  {
    hide HasLongField;
    assert x + whole[|x|..] == whole;
    LongFieldGrows(x, whole[|x|..]);
  }

  lemma {:induction false} LinesPrefix(parts: seq<string>, i: nat, n: nat)
    requires i <= n <= |parts|
    ensures Lines(parts[..i]) <= Lines(parts[..n])
    decreases n - i
  {
    if i < n {
      LinesSnoc(parts, i);
      LinesPrefix(parts, i + 1, n);
    }
  }

  lemma {:induction false} ConcatPrefix(chunks: seq<string>, c: nat)
    requires c <= |chunks|
    ensures Concat(chunks[..c]) <= Concat(chunks)
    decreases |chunks| - c
  {
    if c == |chunks| {
      assert chunks[..c] == chunks;
    } else {
      assert chunks[..c + 1][..c] == chunks[..c];
      ConcatPrefix(chunks, c + 1);
    }
  }

  lemma PrefixAppend(a: string, b: string, c: string)
    requires b <= c
    ensures a + b <= a + c
  {
  }

  /** The loop over the lines of one chunk. */
  method ConsumeChunk(e: Evaluation, chunk: string) returns (ok: bool)
    requires e.Valid()
    modifies e, e.summary
    ensures ok ==> e.Valid() && e.text == old(e.text) + chunk
    ensures !ok ==> HasLongField(e.text) && e.text <= old(e.text) + chunk
  {
    hide HasLongField, Compact, Buffered, Evaluated, Headers, OneLine, LineEnd;
    var parts := Split(chunk);
    var n := |parts| - 1;
    ghost var before := e.text;
    var i := 0;
    assert parts[..0] == [] && before + "" == before;
    while i < n
      invariant 0 <= i <= n && e.Valid()
      invariant e.text == before + Lines(parts[..i])
    {
      ok := e.Consume(parts[i], true);
      assert LineEnd(true) == "\n" by { LineEnds(); }
      LinesSnoc(parts, i);
      Associative(before, Lines(parts[..i]), parts[i] + "\n");
      LinesPrefix(parts, i + 1, n);
      if !ok {
        PrefixAppend(before, Lines(parts[..i + 1]), chunk);
        return;
      }
      i := i + 1;
    }
    ok := e.Consume(parts[n], false);
    assert parts[n] + LineEnd(false) == parts[n] by { LineEnds(); }
    Associative(before, Lines(parts[..n]), parts[n]);
  }

  lemma LineEnds()
    ensures LineEnd(true) == "\n" && LineEnd(false) == ""
  {
  }

  /** However a log is cut into chunks, the verdict is that of the whole log. */
  method EvaluateChunks(chunks: seq<string>) returns (r: Outcome)
    ensures r == Verdict(Concat(chunks)) || (r == Err(FieldTooLong) && HasLongField(Concat(chunks) + "\n"))
  {
    hide Verdict, HasLongField, Compact, Buffered, Evaluated, Headers, FeedSpec, OneLine, LineEnd;
    var e := new Evaluation();
    ghost var x := Concat(chunks) + "\n";
    var c := 0;
    while c < |chunks|
      invariant 0 <= c <= |chunks| && e.Valid() && fresh(e) && fresh(e.summary)
      invariant e.text == Concat(chunks[..c])
    {
      var ok := ConsumeChunk(e, chunks[c]);
      assert chunks[..c + 1][..c] == chunks[..c];
      ConcatPrefix(chunks, c + 1);
      if !ok {
        LongFieldPrefix(e.text, x);
        return Err(FieldTooLong);
      }
      c := c + 1;
    }
    assert chunks[..c] == chunks;
    assert OneLine("") by { EmptyIsOneLine(); }
    var ok := e.Consume("", true);
    assert "" + LineEnd(true) == "\n" by { LineEnds(); }
    if !ok {
      return Err(FieldTooLong);
    }
    BufferedCompact(e.text, e.summary.pending, e.summary.Result());
    ghost var p0, r0 := e.summary.pending, e.summary.Result();
    ok := e.summary.Feed("", true);
    Finished(x, p0, r0, e.summary.pending, e.summary.Result(), e.lastReports, e.fatal, e.error, e.prefix);
    r := Judge(e.summary.Result(), e.fatal, e.error);
  }

  lemma EmptyIsOneLine()
    ensures OneLine("")
  {
  }

  lemma Finished(x: string, p0: string, r0: Report, p1: string, r1: Report,
                 reports: nat, fatal: nat, error: nat, prefix: string)
    requires Buffered(x, p0, r0) && FeedSpec(p0, "", true, r0, p1, r1) && Evaluated(x, reports, fatal, error, prefix)
    requires x != "" && x[|x| - 1] == '\n'
    ensures Judge(r1, fatal, error) == Verdict(x[..|x| - 1])
  {
    hide Run, IsDiagnostic, FATAL_LINES, ERROR_LINES, Diagnostics, Judge;
    assert x + "" == x && p0 + "" == p0;
    assert x[..|x| - 1] + "\n" == x;
  }

  // ---------------------------------------------------------------- several logs

  function Severity(s: Status): nat {
    match s
    case Passed => 0
    case Errors => 1
    case Fatals => 2
  }

  /** One declared log file: whether its capture is known to be complete, and its chunks. */
  datatype Log = Log(usable: bool, chunks: seq<string>)

  function VerdictOf(log: Log): Outcome {
    if log.usable then Verdict(Concat(log.chunks)) else Err(UnusableLog)
  }

  /** What each log comes to by itself. */
  function Verdicts(logs: seq<Log>): (vs: seq<Outcome>)
    ensures |vs| == |logs|
  {
    seq(|logs|, i requires 0 <= i < |logs| => VerdictOf(logs[i]))
  }

  /** Sum of the counts of the verdicts with status `s`. */
  function CountWith(s: Status, vs: seq<Outcome>): nat {
    if vs == [] then 0 else
    var last := vs[|vs| - 1];
    CountWith(s, vs[..|vs| - 1]) + if last.Ok? && last.value.0 == s then last.value.1 else 0
  }

  /** `s` is the worst status among the verdicts, or passed. */
  ghost predicate IsWorst(s: Status, vs: seq<Outcome>) {
    && (forall i :: 0 <= i < |vs| ==> vs[i].Ok? && Severity(vs[i].value.0) <= Severity(s))
    && (s == Passed || exists i :: 0 <= i < |vs| && vs[i].Ok? && vs[i].value.0 == s)
  }

  lemma {:induction false} MilderCounts(s: Status, vs: seq<Outcome>)
    requires forall i :: 0 <= i < |vs| ==> vs[i].Ok? && Severity(vs[i].value.0) < Severity(s)
    ensures CountWith(s, vs) == 0
    decreases |vs|
  {
    if vs != [] {
      MilderCounts(s, vs[..|vs| - 1]);
    }
  }

  /** The fold step: one more log. */
  lemma OneMore(vs: seq<Outcome>, n: nat, status: Status, count: nat)
    requires n < |vs| && vs[n].Ok?
    requires IsWorst(status, vs[..n]) && count == CountWith(status, vs[..n])
    ensures var (s, c) := vs[n].value;
            if Severity(s) > Severity(status) then IsWorst(s, vs[..n + 1]) && CountWith(s, vs[..n + 1]) == c
            else IsWorst(status, vs[..n + 1])
                 && CountWith(status, vs[..n + 1]) == count + if s == status then c else 0
  {
    hide IsWorst;
    var (s, c) := vs[n].value;
    var before, after := vs[..n], vs[..n + 1];
    assert after == before + [vs[n]] && after[..n] == before;
    WorstSnoc(before, vs[n], status);
    if Severity(s) > Severity(status) {
      MilderCounts(s, before) by {
        WorstBounds(before, status);
      }
    }
  }

  lemma WorstBounds(vs: seq<Outcome>, status: Status)
    requires IsWorst(status, vs)
    ensures forall i :: 0 <= i < |vs| ==> vs[i].Ok? && Severity(vs[i].value.0) <= Severity(status)
  {
  }

  lemma WorstSnoc(vs: seq<Outcome>, v: Outcome, status: Status)
    requires IsWorst(status, vs) && v.Ok?
    ensures IsWorst(if Severity(v.value.0) > Severity(status) then v.value.0 else status, vs + [v])
  {
    var s := v.value.0;
    var worst := if Severity(s) > Severity(status) then s else status;
    var after := vs + [v];
    assert after[|vs|] == v;
    if worst == status && status != Passed {
      var k :| 0 <= k < |vs| && vs[k].Ok? && vs[k].value.0 == status;
      assert after[k] == vs[k];
    }
  }

  /** One failing file defeats success: the worst status of all files, with the counts of
      exactly the files that have it; the first failure otherwise. */
  method EvaluateLogs(logs: seq<Log>) returns (r: Outcome)
    ensures r.Ok? ==> IsWorst(r.value.0, Verdicts(logs)) && r.value.1 == CountWith(r.value.0, Verdicts(logs))
    ensures r.Ok? ==> forall i :: 0 <= i < |logs| ==> logs[i].usable
    ensures r.Err? ==>
              exists i :: 0 <= i < |logs| && (forall k :: 0 <= k < i ==> Verdicts(logs)[k].Ok?)
                && (VerdictOf(logs[i]) == r || HasLongField(Concat(logs[i].chunks) + "\n"))
  {
    hide Verdict, HasLongField, CountWith, IsWorst;
    ghost var vs := Verdicts(logs);
    var status, count := Passed, 0;
    var i := 0;
    assert vs[..0] == [] && CountWith(Passed, []) == 0 && IsWorst(Passed, []) by { NoLogs(); }
    while i < |logs|
      invariant 0 <= i <= |logs|
      invariant forall k :: 0 <= k < i ==> vs[k].Ok? && logs[k].usable
      invariant IsWorst(status, vs[..i]) && count == CountWith(status, vs[..i])
    {
      if !logs[i].usable {
        return Err(UnusableLog);
      }
      var one := EvaluateChunks(logs[i].chunks);
      if one.Err? {
        return one;
      }
      OneMore(vs, i, status, count);
      if Severity(one.value.0) > Severity(status) {
        status, count := one.value.0, one.value.1;
      } else if one.value.0 == status {
        count := count + one.value.1;
      }
      i := i + 1;
    }
    assert vs[..i] == vs;
    r := Ok((status, count));
  }

  lemma NoLogs()
    ensures CountWith(Passed, []) == 0 && IsWorst(Passed, [])
  {
  }
}
