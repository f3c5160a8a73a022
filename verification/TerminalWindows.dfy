/** terminal_windows.py: byte windows that fit the terminal's bounded row buffer. */
module TerminalWindows {
  import opened Collections
  import opened Wrappers
  import opened Utf8

  const MAX_ROWS := 4000
  const CLIP := 4 * 1024 * 1024
  const TAB: Byte := 9

  datatype Direction = Tail | Earlier | Later | Hit

  datatype Window = Window(start: nat, end: nat)

  // ---------------------------------------------------------------- row costs

  lemma {:induction false} CountsDisjoint(s: seq<Byte>)
    ensures Occurrences(NEWLINE, s) + Occurrences(TAB, s) <= |s|
    decreases |s|
  {
    if s != [] {
      CountsDisjoint(s[..|s| - 1]);
    }
  }

  function Rows(newlines: nat, tabs: nat, bytes: nat, columns: int): nat
    requires columns >= 2
  {
    newlines + (bytes + 7 * tabs + columns - 1) / columns
  }

  /** A row per newline and the total wrapping; a tab takes up to eight cells. */
  function Cost(s: seq<Byte>, columns: int): nat
    requires columns >= 2
  {
    Rows(Occurrences(NEWLINE, s), Occurrences(TAB, s), |s|, columns)
  }

  /** `n / c <= k` when `n < c * (k + 1)`. */
  lemma DivAtMost(n: int, c: int, k: int)
    requires 0 <= n && c > 0 && n < c * k + c
    ensures n / c <= k
  {
    var q := n / c;
    assert c * (k + 1) == c * k + c;
    if q > k {
      MulMonotone(c, k + 1, q);
    }
  }

  lemma MulMonotone(c: int, a: int, b: int)
    requires c >= 0 && a <= b
    ensures c * a <= c * b
  {
  }

  lemma DivMonotone(a: int, b: int, c: int)
    requires 0 <= a <= b && c > 0
    ensures a / c <= b / c
  {
    DivAtMost(a, c, b / c);
  }

  /** Adding bytes at either end never makes text cheaper. */
  lemma CostMonotone(left: seq<Byte>, s: seq<Byte>, right: seq<Byte>, columns: int)
    requires columns >= 2
    ensures Cost(s, columns) <= Cost(left + s + right, columns)
  {
    OccurrencesAppend(NEWLINE, left + s, right);
    OccurrencesAppend(NEWLINE, left, s);
    OccurrencesAppend(TAB, left + s, right);
    OccurrencesAppend(TAB, left, s);
    var whole := left + s + right;
    DivMonotone(|s| + 7 * Occurrences(TAB, s) + columns - 1,
                |whole| + 7 * Occurrences(TAB, whole) + columns - 1, columns);
  }

  lemma SliceCheaper(s: seq<Byte>, a: nat, b: nat, i: nat, j: nat, columns: int)
    requires columns >= 2 && a <= i <= j <= b <= |s|
    ensures Cost(s[i..j], columns) <= Cost(s[a..b], columns)
  {
    CostMonotone(s[a..i], s[i..j], s[j..b], columns);
    assert s[a..i] + s[i..j] + s[j..b] == s[a..b];
  }

  // ---------------------------------------------------------------- the simple form

  function Part(data: seq<Byte>, forward: bool, k: nat): seq<Byte>
    requires k <= |data|
  {
    if forward then data[..k] else data[|data| - k..]
  }

  predicate Fits(data: seq<Byte>, forward: bool, k: nat, columns: int)
    requires k <= |data| && columns >= 2
  {
    Cost(Part(data, forward, k), columns) <= MAX_ROWS
  }

  /** The largest number of bytes, at most `k`, that fits: found by trying `k`, `k - 1`, ... */
  function LargestFit(data: seq<Byte>, forward: bool, k: nat, columns: int): (r: nat)
    requires k <= |data| && columns >= 2
    ensures r <= k
    ensures r > 0 ==> Fits(data, forward, r, columns)
    ensures forall m :: r < m <= k ==> !Fits(data, forward, m, columns)
  {
    if k == 0 || Fits(data, forward, k, columns) then k else LargestFit(data, forward, k - 1, columns)
  }

  lemma FitsLess(data: seq<Byte>, forward: bool, k: nat, m: nat, columns: int)
    requires m <= k <= |data| && columns >= 2 && Fits(data, forward, k, columns)
    ensures Fits(data, forward, m, columns)
  {
    if forward {
      SliceCheaper(data, 0, k, 0, m, columns);
      assert data[0..k] == data[..k] && data[0..m] == data[..m];
    } else {
      SliceCheaper(data, |data| - k, |data|, |data| - m, |data|, columns);
      assert data[|data| - k..|data|] == data[|data| - k..] && data[|data| - m..|data|] == data[|data| - m..];
    }
  }

  /** Step back over at most `budget` continuation bytes before position `e`. */
  function StepBack(data: seq<Byte>, e: nat, budget: nat): (r: nat)
    requires e <= |data|
    ensures r <= e <= r + budget
    decreases budget
  {
    if e > 0 && budget > 0 && e < |data| && IsContinuation(data[e]) then StepBack(data, e - 1, budget - 1) else e
  }

  /** Step over at most `budget` continuation bytes from position `s`. */
  function StepOver(data: seq<Byte>, s: nat, budget: nat): (r: nat)
    requires s <= |data|
    ensures s <= r <= s + budget && r <= |data|
    decreases budget
  {
    if s < |data| && budget > 0 && IsContinuation(data[s]) then StepOver(data, s + 1, budget - 1) else s
  }

  function AlignEnd(data: seq<Byte>, low: nat): (e: nat)
    requires low <= |data|
    ensures e <= low <= e + 3
  {
    var e := StepBack(data, low, 3);
    if e == 0 || (e < |data| && IsContinuation(data[e])) then low else e
  }

  function AlignStart(data: seq<Byte>, candidate: nat): (s: nat)
    requires candidate <= |data|
    ensures candidate <= s <= candidate + 3 && s <= |data|
  {
    var s := StepOver(data, candidate, 3);
    if s == |data| || IsContinuation(data[s]) then candidate else s
  }

  function Clamp(columns: int): (c: int)
    ensures 2 <= c <= 1000
  {
    if columns < 2 then 2 else if columns > 1000 then 1000 else columns
  }

  function Min(a: int, b: int): int {
    if a <= b then a else b
  }

  function Max(a: int, b: int): int {
    if a >= b then a else b
  }

  /** The requested range, clipped to the file, to 4 MiB, and to 1024 bytes before a hit. */
  function Clip(size: nat, start: int, end: int, hit: Option<int>): (w: Window)
    ensures w.start <= w.end <= size && w.end - w.start <= CLIP
  {
    var e := Min(Max(0, end), size);
    var s := Min(e, Max(Max(0, start), e - CLIP));
    Window(if hit.Some? then Max(s, Min(e, hit.value) - 1024) else s, e)
  }

  predicate IsForward(direction: Direction) {
    direction == Later || direction == Hit
  }

  /** The window of a range: the largest prefix or suffix that fits, with its cut edge aligned. */
  function WindowOf(file: seq<Byte>, start: int, end: int, columns: int,
      direction: Direction, hit: Option<int>): Window
  {
    var c := Clamp(columns);
    var w := Clip(|file|, start, end, hit);
    var data := file[w.start..w.end];
    var low := LargestFit(data, IsForward(direction), |data|, c);
    if IsForward(direction) then Window(w.start, w.start + AlignEnd(data, low))
    else Window(w.start + AlignStart(data, |data| - low), w.end)
  }

  // ---------------------------------------------------------------- the program

  /** The binary search and the alignment loops of the source; a missing file has the window 0..0. */
  method TerminalWindow(path: Option<seq<Byte>>, start: int, end: int, columns: int, direction: Direction,
                        hit: Option<int>) returns (window: Window)
    ensures window == if path.None? then Window(0, 0) else WindowOf(path.value, start, end, columns, direction, hit)
  {
    hide Fits, AlignEnd, AlignStart, LargestFit;
    if path.None? {
      return Window(0, 0);
    }
    var file := path.value;
    var c := Clamp(columns);
    var size := |file|;
    var last := Min(Max(0, end), size);
    var first := Min(last, Max(Max(0, start), last - CLIP));
    if hit.Some? {
      first := Max(first, Min(last, hit.value) - 1024);
    }
    var data := file[first..last];
    var forward := IsForward(direction);
    var low, high := 0, |data|;
    while low < high
      invariant 0 <= low <= high <= |data|
      invariant low > 0 ==> Fits(data, forward, low, c)
      invariant high < |data| ==> !Fits(data, forward, high + 1, c)
    {
      var middle := (low + high + 1) / 2;
      if Fits(data, forward, middle, c) {
        low := middle;
      } else {
        high := middle - 1;
      }
    }
    BinarySearchExact(data, forward, low, c);
    if forward {
      var e := AlignEndLoop(data, low);
      window := Window(first, first + e);
    } else {
      var s := AlignStartLoop(data, |data| - low);
      window := Window(first + s, last);
    }
  }

  lemma BinarySearchExact(data: seq<Byte>, forward: bool, low: nat, c: int)
    requires low <= |data| && c >= 2
    requires low > 0 ==> Fits(data, forward, low, c)
    requires low < |data| ==> !Fits(data, forward, low + 1, c)
    ensures low == LargestFit(data, forward, |data|, c)
  {
    var r := LargestFit(data, forward, |data|, c);
    if r > low {
      FitsLess(data, forward, r, low + 1, c);
    }
  }

  method AlignEndLoop(data: seq<Byte>, low: nat) returns (end: nat)
    requires low <= |data|
    ensures end == AlignEnd(data, low)
  {
    end := low;
    while end > 0 && low - end < 3 && end < |data| && IsContinuation(data[end])
      invariant low - 3 <= end <= low
      invariant StepBack(data, low, 3) == StepBack(data, end, 3 - (low - end))
    {
      end := end - 1;
    }
    if end == 0 || (end < |data| && IsContinuation(data[end])) {
      end := low;  // malformed runs have no valid boundary to align
    }
  }

  method AlignStartLoop(data: seq<Byte>, candidate: nat) returns (start: nat)
    requires candidate <= |data|
    ensures start == AlignStart(data, candidate)
  {
    start := candidate;
    while start < |data| && start - candidate < 3 && IsContinuation(data[start])
      invariant candidate <= start <= candidate + 3 && start <= |data|
      invariant StepOver(data, candidate, 3) == StepOver(data, start, 3 - (start - candidate))
    {
      start := start + 1;
    }
    if start == |data| || IsContinuation(data[start]) {
      start := candidate;
    }
  }

  // ---------------------------------------------------------------- what a window promises

  /** Short text always fits, so a window is cut only after many bytes. */
  lemma ShortFits(s: seq<Byte>, c: int)
    requires c >= 2 && |s| <= 700
    ensures Cost(s, c) <= MAX_ROWS
  {
    var k := 4 * |s|;
    MulAtLeast(c, k);
    DivAtMost(|s| + 7 * Occurrences(TAB, s) + c - 1, c, k);
  }

  lemma MulAtLeast(c: int, k: int)
    requires c >= 2 && k >= 0
    ensures c * k >= 2 * k
  {
  }

  lemma FitIsLarge(data: seq<Byte>, forward: bool, c: int)
    requires c >= 2
    ensures LargestFit(data, forward, |data|, c) >= Min(|data|, 700)
  {
    hide Cost;
    var m := Min(|data|, 700);
    ShortFits(Part(data, forward, m), c);
    assert Fits(data, forward, m, c);
  }

  /** The window lies inside the clipped request, fits the rows, and holds something if the
      request does.  Up to three bytes, it is the largest such prefix or suffix. */
  lemma WindowFits(file: seq<Byte>, start: int, end: int, columns: int, direction: Direction, hit: Option<int>)
    ensures var w := WindowOf(file, start, end, columns, direction, hit);
            var q := Clip(|file|, start, end, hit);
            var c := Clamp(columns);
            && q.start <= w.start <= w.end <= q.end
            && Cost(file[w.start..w.end], c) <= MAX_ROWS
            && (q.start < q.end ==> w.start < w.end)
            && (if IsForward(direction)
                then w.start == q.start && (w.end + 4 <= q.end ==> Cost(file[w.start..w.end + 4], c) > MAX_ROWS)
                else w.end == q.end && (q.start + 4 <= w.start ==> Cost(file[w.start - 4..w.end], c) > MAX_ROWS))
  {
    hide Cost, Fits, AlignEnd, AlignStart, Clip;
    var c := Clamp(columns);
    var q := Clip(|file|, start, end, hit);
    var w := WindowOf(file, start, end, columns, direction, hit);
    var data := file[q.start..q.end];
    var forward := IsForward(direction);
    var low := LargestFit(data, forward, |data|, c);
    FitIsLarge(data, forward, c);
    AlignNonEmpty(data, low);
    var a, b := if forward then q.start else q.end - low, if forward then q.start + low else q.end;
    FitsInFile(file, q.start, q.end, forward, low, c);
    if low == 0 {
      ShortFits(file[a..b], c);
    }
    SliceCheaper(file, a, b, w.start, w.end, c);
    if low < |data| {
      assert !Fits(data, forward, low + 1, c);
      FitsInFile(file, q.start, q.end, forward, low + 1, c);
      if forward && w.end + 4 <= q.end {
        SliceCheaper(file, w.start, w.end + 4, q.start, q.start + low + 1, c);
      }
      if !forward && q.start + 4 <= w.start {
        SliceCheaper(file, w.start - 4, w.end, q.end - low - 1, q.end, c);
      }
    }
  }

  lemma FitsInFile(file: seq<Byte>, a: nat, b: nat, forward: bool, k: nat, c: int)
    requires a <= b <= |file| && k <= b - a && c >= 2
    ensures Fits(file[a..b], forward, k, c)
        <==> Cost(if forward then file[a..a + k] else file[b - k..b], c) <= MAX_ROWS
  {
    if forward {
      assert file[a..b][..k] == file[a..a + k];
    } else {
      assert file[a..b][b - a - k..] == file[b - k..b];
    }
  }

  lemma AlignNonEmpty(data: seq<Byte>, low: nat)
    requires low <= |data| && (data != [] ==> low > 0)
    ensures data != [] ==> AlignEnd(data, low) > 0 && AlignStart(data, |data| - low) < |data|
  {
  }

  /** In valid UTF-8 the cut edge of a shortened window is a character boundary. */
  lemma CutEdgeIsBoundary(file: seq<Byte>, start: int, end: int, columns: int, direction: Direction, hit: Option<int>)
    requires IsValid(file)
    ensures var w := WindowOf(file, start, end, columns, direction, hit);
            var q := Clip(|file|, start, end, hit);
            && w.end <= |file| && w.start <= |file|
            && (w.end < q.end ==> IsBoundary(file, w.end))
            && (w.start > q.start ==> IsBoundary(file, w.start))
  {
    hide Cost, AlignEnd, AlignStart, Clip, IsValid, IsBoundary, StepOver, StepBack;
    var c := Clamp(columns);
    var q := Clip(|file|, start, end, hit);
    var w := WindowOf(file, start, end, columns, direction, hit);
    var data := file[q.start..q.end];
    var forward := IsForward(direction);
    var low := LargestFit(data, forward, |data|, c);
    FitIsLarge(data, forward, c);
    if forward && w.end < q.end {
      EndAligned(file, q.start, q.end, low);
      BoundaryIff(file, w.end);
    }
    if !forward && w.start > q.start {
      StartAligned(file, q.start, q.end, |data| - low);
      BoundaryIff(file, w.start);
    }
  }

  lemma EndAligned(file: seq<Byte>, a: nat, b: nat, low: nat)
    requires IsValid(file) && a <= b <= |file| && low <= b - a && (low == b - a || low >= 4)
    ensures var e := AlignEnd(file[a..b], low); e < b - a ==> !IsContinuation(file[a + e])
  {
    hide IsValid;
    var data := file[a..b];
    if low < b - a {
      if a + low + 1 <= |file| && low >= 3 {
        ShortRuns(file, a + low - 3);
      }
      StepBackStops(data, low);
    }
  }

  lemma StepBackStops(data: seq<Byte>, low: nat)
    requires 4 <= low < |data|
    requires !(IsContinuation(data[low - 3]) && IsContinuation(data[low - 2]) && IsContinuation(data[low - 1])
               && IsContinuation(data[low]))
    ensures AlignEnd(data, low) < |data| && !IsContinuation(data[AlignEnd(data, low)])
  {
    var e1 := StepBack(data, low - 1, 2);
    var e2 := StepBack(data, low - 2, 1);
    var e3 := StepBack(data, low - 3, 0);
  }

  lemma StartAligned(file: seq<Byte>, a: nat, b: nat, candidate: nat)
    requires IsValid(file) && a <= b <= |file| && candidate <= b - a
    requires candidate == 0 || b - a - candidate >= 4
    ensures var s := AlignStart(file[a..b], candidate); s > 0 ==> s < b - a && !IsContinuation(file[a + s])
  {
    hide IsValid;
    var data := file[a..b];
    if candidate + 4 <= b - a {
      ShortRuns(file, a + candidate);
      StepOverStops(data, candidate);
    }
  }

  lemma StepOverStops(data: seq<Byte>, s: nat)
    requires s + 4 <= |data|
    requires !(IsContinuation(data[s]) && IsContinuation(data[s + 1]) && IsContinuation(data[s + 2])
               && IsContinuation(data[s + 3]))
    ensures AlignStart(data, s) < |data| && !IsContinuation(data[AlignStart(data, s)])
  {
    var s1 := StepOver(data, s + 1, 2);
    var s2 := StepOver(data, s + 2, 1);
    var s3 := StepOver(data, s + 3, 0);
  }

  // ---------------------------------------------------------------- how far a window reaches

  lemma FitsUpTo(data: seq<Byte>, forward: bool, k: nat, c: int)
    requires k <= |data| && c >= 2
    ensures Fits(data, forward, k, c) <==> k <= LargestFit(data, forward, |data|, c)
  {
    hide Cost, Fits;
    var low := LargestFit(data, forward, |data|, c);
    if k <= low && low > 0 {
      FitsLess(data, forward, low, k, c);
    } else if k <= low {
      FitIsLarge(data, forward, c);
      NothingFits(data, forward, c);
    }
  }

  lemma NothingFits(data: seq<Byte>, forward: bool, c: int)
    requires c >= 2
    ensures Fits(data, forward, 0, c)
  {
    hide Cost;
    ShortFits(Part(data, forward, 0), c);
  }

  lemma {:induction false} StepBackStays(data: seq<Byte>, e: nat, budget: nat, p: nat)
    requires p <= e <= |data| && (p == |data| || !IsContinuation(data[p]))
    ensures StepBack(data, e, budget) >= p
    decreases budget
  {
    if e > p && e > 0 && budget > 0 && e < |data| && IsContinuation(data[e]) {
      StepBackStays(data, e - 1, budget - 1, p);
    }
  }

  lemma {:induction false} StepOverStays(data: seq<Byte>, s: nat, budget: nat, p: nat)
    requires s <= p <= |data| && (p == |data| || !IsContinuation(data[p]))
    ensures StepOver(data, s, budget) <= p
    decreases budget
  {
    if s < p && s < |data| && budget > 0 && IsContinuation(data[s]) {
      StepOverStays(data, s + 1, budget - 1, p);
    }
  }

  /** A window that reaches forward holds the text up to a character boundary if and only if that text fits
      the rows; one that reaches back holds the text from a boundary on if and only if that fits. */
  lemma ReachesExactly(file: seq<Byte>, start: int, end: int, columns: int, direction: Direction, hit: Option<int>,
      p: nat)
    requires var q := Clip(|file|, start, end, hit);
             q.start <= p <= q.end && (p == q.end || !IsContinuation(file[p]))
    ensures var w := WindowOf(file, start, end, columns, direction, hit);
            var q := Clip(|file|, start, end, hit);
            if IsForward(direction) then p <= w.end <==> Cost(file[q.start..p], Clamp(columns)) <= MAX_ROWS
            else w.start <= p <==> Cost(file[p..q.end], Clamp(columns)) <= MAX_ROWS
  {
    hide Cost, Fits, Clip, LargestFit, StepBack, StepOver;
    var c := Clamp(columns);
    var q := Clip(|file|, start, end, hit);
    var data := file[q.start..q.end];
    var forward := IsForward(direction);
    var low := LargestFit(data, forward, |data|, c);
    var k := if forward then p - q.start else q.end - p;
    FitsUpTo(data, forward, k, c);
    FitsInFile(file, q.start, q.end, forward, k, c);
    if forward && k <= low {
      StepBackStays(data, low, 3, k);
    }
    if !forward && k <= low {
      StepOverStays(data, |data| - low, 3, p - q.start);
    }
  }

  /** What a request asks for: its end, and no more than 4 MiB before it. */
  lemma ClipMeans(size: nat, start: int, end: int)
    requires 0 <= start <= end <= size
    ensures Clip(size, start, end, None) == Window(if end - start <= CLIP then start else end - CLIP, end)
  {
  }

  lemma WideFits(s: seq<Byte>, c: int)
    requires c >= 3 && |s| <= 1100
    ensures Cost(s, c) <= MAX_ROWS
  {
    var n, t := Occurrences(NEWLINE, s), Occurrences(TAB, s);
    CountsDisjoint(s);
    var k := MAX_ROWS - n;
    MulMonotone(k, 3, c);
    RowsAtMost(|s| + 7 * t, c, k);
  }

  lemma RowsAtMost(cells: nat, c: int, k: int)
    requires c > 0 && cells <= c * k
    ensures (cells + c - 1) / c <= k
  {
    DivAtMost(cells + c - 1, c, k);
  }

  /** The window of a hit begins at most 1024 bytes before it, and on a terminal of at least three columns
      shows the hit and what follows it. */
  lemma HitIsShown(file: seq<Byte>, start: int, end: int, columns: int, h: int)
    requires 0 <= start <= h < end <= |file| && end - h <= CLIP
    ensures var w := WindowOf(file, start, end, columns, Hit, Some(h));
            && w.start == Max(Max(start, end - CLIP), h - 1024) <= h
            && (columns >= 3 ==> w.end >= Min(end, h + 64))
  {
    hide Cost, Fits, StepBack;
    var c := Clamp(columns);
    var q := Clip(|file|, start, end, Some(h));
    var data := file[q.start..q.end];
    if columns >= 3 {
      var m := Min(|data|, 1100);
      WideFits(Part(data, true, m), c);
      assert Fits(data, true, m, c) by { PartFits(data, true, m, c); }
      FitsUpTo(data, true, m, c);
      StepBackStays(data, |data|, 3, |data|);
    }
  }

  lemma PartFits(data: seq<Byte>, forward: bool, k: nat, c: int)
    requires k <= |data| && c >= 2 && Cost(Part(data, forward, k), c) <= MAX_ROWS
    ensures Fits(data, forward, k, c)
  {
  }
}
