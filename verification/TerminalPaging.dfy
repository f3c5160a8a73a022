/** The history paging of the terminal view: App.jsx `loadAtEdge`, the row-window setup of the
    terminal socket in api.py, and the windows of terminal_windows.py, taken together. */
module TerminalPaging {
  import opened Collections
  import opened Wrappers
  import opened Utf8
  import opened TerminalWindows

  const WINDOW_BYTES := 4 * 1024 * 1024
  const OVERLAP_BYTES := 128 * 1024

  // ---------------------------------------------------------------- one page

  function Overlap(w: Window): (o: nat)
    requires w.start <= w.end
    ensures 4 * o <= w.end - w.start && o <= OVERLAP_BYTES
  {
    Min(OVERLAP_BYTES, (w.end - w.start) / 4)
  }

  /** The byte range the view asks for when it pages towards the end. */
  function LaterRange(w: Window, size: nat): (r: Window)
    requires w.start <= w.end <= size
    ensures r.start <= w.end && r.end == Min(size, r.start + WINDOW_BYTES)
  {
    var s := w.end - Overlap(w);
    Window(s, Min(size, s + WINDOW_BYTES))
  }

  /** The byte range the view asks for when it pages towards the beginning. */
  function EarlierRange(w: Window): (r: Window)
    requires w.start <= w.end
    ensures r.start <= r.end && w.start <= r.end <= w.end
  {
    var e := w.start + Overlap(w);
    Window(Max(0, e - WINDOW_BYTES), e)
  }

  /** What the terminal socket serves for a range. */
  function Serve(file: seq<Byte>, r: Window, columns: int, direction: Direction): Window {
    WindowOf(file, r.start, Max(r.start, Min(|file|, r.end)), columns, direction, None)
  }

  function PageLater(file: seq<Byte>, w: Window, columns: int): Window
    requires w.start <= w.end <= |file|
  {
    Serve(file, LaterRange(w, |file|), columns, Later)
  }

  function PageEarlier(file: seq<Byte>, w: Window, columns: int): Window
    requires w.start <= w.end <= |file|
  {
    Serve(file, EarlierRange(w), columns, Earlier)
  }

  /** A window the terminal may be showing: it lies in the file and fits the row buffer. */
  ghost predicate IsServed(file: seq<Byte>, w: Window, columns: int) {
    w.start <= w.end <= |file| && Cost(file[w.start..w.end], Clamp(columns)) <= MAX_ROWS
  }

  lemma ServeIsServed(file: seq<Byte>, r: Window, columns: int, direction: Direction)
    ensures IsServed(file, Serve(file, r, columns, direction), columns)
  {
    hide Cost, Clip, WindowOf;
    WindowFits(file, r.start, Max(r.start, Min(|file|, r.end)), columns, direction, None);
  }

  // ---------------------------------------------------------------- room behind the overlap

  /** A quarter of the bytes of a window leaves room for four more bytes of any kind:
      `n`, `t`, `o` are the newlines, tabs and bytes of the overlap, `nw`, `tw`, `w` those of
      the window, `n4`, `t4`, `m` those of the bytes to add. */
  lemma RoomForFour(n: nat, t: nat, o: nat, nw: nat, tw: nat, w: nat, n4: nat, t4: nat, m: nat, c: int)
    requires 2 <= c <= 1000
    requires n + t <= o && n <= nw && t <= tw && 4 * o <= w && n4 + t4 <= m <= 4
    requires Rows(nw, tw, w, c) <= MAX_ROWS
    ensures Rows(n + n4, t + t4, o + m, c) <= MAX_ROWS
  {
    hide Rows;
    var x := o + m + 7 * (t + t4) + c - 1;
    if 3 * o >= 5 * c + 31 {
      var a := (4 * o + 7 * t + c - 1) / c;
      WideOverlap(o, t, n4, t4, m, c, a);
      RowsAre(nw, tw, w, c);
      RowsAre(n + n4, t + t4, o + m, c);
      DivMonotone(4 * o + 7 * t + c - 1, w + 7 * tw + c - 1, c);
    } else {
      NarrowOverlap(n + n4, t + t4, o + m, c);
    }
  }

  lemma RowsAre(newlines: nat, tabs: nat, bytes: nat, c: int)
    requires c >= 2
    ensures Rows(newlines, tabs, bytes, c) == newlines + (bytes + 7 * tabs + c - 1) / c
  {
  }

  /** The three other quarters wrap to more rows than four arbitrary bytes can take. */
  lemma WideOverlap(o: nat, t: nat, n4: nat, t4: nat, m: nat, c: int, a: nat)
    requires 2 <= c && n4 + t4 <= m <= 4 && 3 * o >= 5 * c + 31
    requires a == (4 * o + 7 * t + c - 1) / c
    ensures n4 + (o + m + 7 * (t + t4) + c - 1) / c <= a
  {
    var x := o + m + 7 * (t + t4) + c - 1;
    TimesUpToFour(c, n4);
    DivUpper(4 * o + 7 * t + c - 1, c);
    WideSum(o, t, n4, t4, m, c, c * a, c * n4);
    TimesDifference(c, a, n4);
    DivAtMostSigned(x, c, a - n4);
  }

  lemma WideSum(o: nat, t: nat, n4: nat, t4: nat, m: nat, c: int, ca: int, cn: int)
    requires 2 <= c && n4 + t4 <= m <= 4 && 3 * o >= 5 * c + 31
    requires ca >= 4 * o + 7 * t && cn <= 4 * c && (c < 7 ==> cn <= 7 * n4) && (c >= 7 ==> cn - 7 * n4 <= 4 * (c - 7))
    ensures o + m + 7 * (t + t4) + c - 1 < ca - cn + c
  {
  }

  lemma TimesDifference(c: int, a: int, b: int)
    ensures c * (a - b) == c * a - c * b
  {
  }

  lemma TimesUpToFour(c: int, k: nat)
    requires c >= 0 && k <= 4
    ensures c * k <= 4 * c
    ensures c < 7 ==> c * k <= 7 * k
    ensures c >= 7 ==> c * k - 7 * k <= 4 * (c - 7)
  {
    match k
    case 0 =>
    case 1 =>
    case 2 =>
    case 3 =>
    case _ =>
  }

  lemma DivUpper(n: nat, c: int)
    requires c > 0
    ensures c * (n / c) >= n - c + 1
  {
  }

  lemma DivAtMostSigned(n: nat, c: int, k: int)
    requires c > 0 && n < c * k + c
    ensures n / c <= k
  {
    if k < 0 {
      MulMonotone(c, k, -1);
    } else {
      DivAtMost(n, c, k);
    }
  }

  /** Few bytes cost few rows. */
  lemma NarrowOverlap(n: nat, t: nat, p: nat, c: int)
    requires 2 <= c <= 1000 && n + t <= p && 3 * p < 5 * c + 43
    ensures Rows(n, t, p, c) <= MAX_ROWS
  {
    if c < 8 {
      MulAtLeast(c, 4 * p);
      DivAtMost(p + 7 * t + c - 1, c, 4 * p);
    } else {
      MulAtLeast(c, 0);
      var k := t + p / 8;
      assert c * k >= 8 * k by {
        MulMonotone(k, 8, c);
      }
      assert c * t >= 8 * t by {
        MulMonotone(t, 8, c);
      }
      assert c * (p / 8) >= 8 * (p / 8) by {
        MulMonotone(p / 8, 8, c);
      }
      assert c * k == c * t + c * (p / 8);
      DivAtMost(p + 7 * t + c - 1, c, k + 1) by {
        assert c * (k + 1) == c * k + c;
      }
    }
  }

  /** The bytes of an overlap and up to four neighbours always fit a window. */
  lemma OverlapFits(file: seq<Byte>, w: Window, columns: int, a: nat, b: nat)
    requires IsServed(file, w, columns)
    requires a <= b <= |file|
    requires (a == w.end - Overlap(w) && w.end <= b <= w.end + 4)
          || (b == w.start + Overlap(w) && w.start - 4 <= a <= w.start)
    ensures Cost(file[a..b], Clamp(columns)) <= MAX_ROWS
  {
    hide Rows, Occurrences;
    var c := Clamp(columns);
    var s := file[w.start..w.end];
    var (i, j) := if a == w.end - Overlap(w) && w.end <= b then (a, w.end) else (w.start, b);
    var over := file[i..j];
    var more := if j == b then file[a..i] else file[j..b];
    CountsDisjoint(over);
    CountsDisjoint(more);
    SliceCounts(file, w.start, w.end, i, j);
    if j == b {
      SplitCounts(file, a, i, b);
    } else {
      SplitCounts(file, a, j, b);
    }
    RoomForFour(Occurrences(NEWLINE, over), Occurrences(TAB, over), |over|,
                Occurrences(NEWLINE, s), Occurrences(TAB, s), |s|,
                Occurrences(NEWLINE, more), Occurrences(TAB, more), |more|, c);
  }

  lemma SplitCounts(file: seq<Byte>, a: nat, m: nat, b: nat)
    requires a <= m <= b <= |file|
    ensures Occurrences(NEWLINE, file[a..b]) == Occurrences(NEWLINE, file[a..m]) + Occurrences(NEWLINE, file[m..b])
    ensures Occurrences(TAB, file[a..b]) == Occurrences(TAB, file[a..m]) + Occurrences(TAB, file[m..b])
  {
    assert file[a..b] == file[a..m] + file[m..b];
    OccurrencesAppend(NEWLINE, file[a..m], file[m..b]);
    OccurrencesAppend(TAB, file[a..m], file[m..b]);
  }

  lemma SliceCounts(file: seq<Byte>, a: nat, b: nat, i: nat, j: nat)
    requires a <= i <= j <= b <= |file|
    ensures Occurrences(NEWLINE, file[i..j]) <= Occurrences(NEWLINE, file[a..b])
    ensures Occurrences(TAB, file[i..j]) <= Occurrences(TAB, file[a..b])
  {
    SplitCounts(file, a, i, b);
    SplitCounts(file, i, j, b);
  }

  // ---------------------------------------------------------------- progress

  /** Paging later from any served window of any file starts at or before the old end and ends
      strictly after it. */
  lemma LaterProgress(file: seq<Byte>, w: Window, columns: int)
    requires IsServed(file, w, columns) && w.end < |file|
    ensures var p := PageLater(file, w, columns);
            IsServed(file, p, columns) && p.start <= w.end < p.end
  {
    hide Cost, LargestFit, AlignEnd, AlignStart, Fits, IsServed;
    ServedInside(file, w, columns);
    var r := LaterRange(w, |file|);
    ServeIsServed(file, r, columns, Later);
    ServedRange(file, r, columns, Later);
    var data := file[r.start..r.end];
    var c := Clamp(columns);
    var m := Min(4, r.end - w.end);
    OverlapFits(file, w, columns, r.start, w.end + m);
    FitsInFile(file, r.start, r.end, true, Overlap(w) + m, c);
    WholeIsNotCut(data, LargestFit(data, true, |data|, c));
  }

  /** A range inside the file and no larger than 4 MiB is not clipped. */
  lemma ServedRange(file: seq<Byte>, r: Window, columns: int, direction: Direction)
    requires r.start <= r.end <= |file| && r.end - r.start <= WINDOW_BYTES
    ensures Clip(|file|, r.start, Max(r.start, Min(|file|, r.end)), None) == r
  {
  }

  lemma WholeIsNotCut(data: seq<Byte>, low: nat)
    requires low <= |data|
    ensures low == |data| ==> AlignEnd(data, low) == low
  {
  }

  /** How many continuation bytes a file begins with. */
  function Lead(file: seq<Byte>): (n: nat)
    ensures n <= |file|
  {
    if file == [] || !IsContinuation(file[0]) then 0 else 1 + Lead(file[1..])
  }

  /** The start of the file looks like the inside of one cut character: the window starts within
      its first bytes, and the range to be served next ends behind them. */
  predicate IsStuck(file: seq<Byte>, w: Window)
    requires w.start <= w.end
  {
    w.start <= Lead(file) <= 3 && Lead(file) < w.start + Overlap(w)
  }

  /** Paging earlier from any served window of any file ends at or after the old start, and it
      starts before it exactly if the window is not stuck. */
  lemma EarlierProgress(file: seq<Byte>, w: Window, columns: int)
    requires IsServed(file, w, columns) && w.start > 0
    ensures var p := PageEarlier(file, w, columns);
            && IsServed(file, p, columns) && w.start <= p.end
            && (p.start < w.start <==> !IsStuck(file, w))
  {
    hide Cost, LargestFit, AlignStart, Fits, Lead;
    var r := EarlierRange(w);
    ServeIsServed(file, r, columns, Earlier);
    ServedRange(file, r, columns, Earlier);
    var data := file[r.start..r.end];
    var c := Clamp(columns);
    var m := Min(4, w.start - r.start);
    OverlapFits(file, w, columns, w.start - m, r.end);
    FitsInFile(file, r.start, r.end, false, Overlap(w) + m, c);
    var low := LargestFit(data, false, |data|, c);
    if low == |data| {
      if r.start > 0 {
        FullClipCosts(data, c);
        FitsInFile(file, r.start, r.end, false, |data|, c);
      } else {
        assert data == file[..r.end];
        CutAtStart(file, r.end);
      }
    }
  }

  /** A range that is served from the start of the file skips the bytes that the file begins with if
      they can be the end of a character. */
  lemma CutAtStart(file: seq<Byte>, e: nat)
    requires e <= |file|
    ensures AlignStart(file[..e], 0) == if Lead(file) <= 3 && Lead(file) < e then Lead(file) else 0
  {
    hide IsContinuation;
    StepsOverLead(file, e, 0, 3);
    LeadBytes(file);
  }

  lemma {:induction false} StepsOverLead(file: seq<Byte>, e: nat, i: nat, most: nat)
    requires i <= e <= |file| && i <= Lead(file)
    ensures StepOver(file[..e], i, most) == Min(Min(Lead(file), e), i + most)
    decreases most
  {
    hide IsContinuation, Lead;
    LeadBytes(file);
    if i < e && most > 0 && i < Lead(file) {
      StepsOverLead(file, e, i + 1, most - 1);
    }
  }

  lemma {:induction false} LeadBytes(file: seq<Byte>)
    ensures forall i :: 0 <= i < Lead(file) ==> IsContinuation(file[i])
    ensures Lead(file) < |file| ==> !IsContinuation(file[Lead(file)])
  {
    hide IsContinuation;
    if file != [] && IsContinuation(file[0]) {
      LeadBytes(file[1..]);
    }
  }

  /** Four MiB never fit the row buffer, whatever the width. */
  lemma FullClipCosts(data: seq<Byte>, c: int)
    requires 2 <= c <= 1000 && |data| == WINDOW_BYTES
    ensures Cost(data, c) > MAX_ROWS
  {
    var n := |data| + 7 * Occurrences(TAB, data) + c - 1;
    DivUpper(n, c);
    if n / c <= MAX_ROWS {
      MulMonotone(c, n / c, MAX_ROWS);
      MulMonotone(MAX_ROWS, c, 1000);
    }
  }

  /** A stuck window: here paging earlier stays at the same start. */
  lemma EarlierStuck()
    ensures var file: seq<Byte> := [0x80, 97, 97, 97, 97];
            var w := Window(1, 5);
            IsServed(file, w, 80) && PageEarlier(file, w, 80).start == w.start
  {
    hide Cost;
    var file: seq<Byte> := [0x80, 97, 97, 97, 97];
    var w := Window(1, 5);
    ShortFits(file[1..5], 80);
    var data := file[0..2];
    assert EarlierRange(w) == Window(0, 2);
    ShortFits(data, 80);
    assert data[|data| - 2..] == data;
    assert Fits(data, false, 2, 80);
    assert StepOver(data, 0, 3) == StepOver(data, 1, 2) == 1;
  }

  // ---------------------------------------------------------------- whole histories

  /** The windows seen when paging `n` more times from `w`. */
  function Pages(file: seq<Byte>, w: Window, columns: int, later: bool, n: nat): (ws: seq<Window>)
    requires w.start <= w.end <= |file|
    ensures |ws| > 0 && ws[0] == w
    decreases n
  {
    if n == 0 then [w] else
    var p := if later then PageLater(file, w, columns) else PageEarlier(file, w, columns);
    ServeIsServed(file, if later then LaterRange(w, |file|) else EarlierRange(w), columns,
                  if later then Later else Earlier);
    [w] + Pages(file, p, columns, later, n - 1)
  }

  predicate Shows(w: Window, x: nat) {
    w.start <= x < w.end
  }

  ghost predicate Shown(ws: seq<Window>, x: nat) {
    exists i :: 0 <= i < |ws| && Shows(ws[i], x)
  }

  /** Every byte of `file[a..b]` lies in one of the windows. */
  ghost predicate Covers(ws: seq<Window>, a: nat, b: nat) {
    forall x: nat :: a <= x < b ==> Shown(ws, x)
  }

  lemma CoversMore(w: Window, ws: seq<Window>, a: nat, b: nat, a': nat, b': nat)
    requires Covers(ws, a', b') && forall x: nat {:trigger Shows(w, x)} :: a <= x < b && !(a' <= x < b') ==> Shows(w, x)
    ensures Covers([w] + ws, a, b)
  {
    var all := [w] + ws;
    forall x: nat | a <= x < b ensures Shown(all, x) {
      if a' <= x < b' {
        assert Shown(ws, x);
        var i :| 0 <= i < |ws| && Shows(ws[i], x);
        assert all[i + 1] == ws[i];
      } else {
        assert Shows(all[0], x);
      }
    }
  }

  /** Paging later reaches the end of any file, and shows every byte on the way. */
  lemma {:induction false} LaterReachesEnd(file: seq<Byte>, w: Window, columns: int) returns (n: nat)
    requires IsServed(file, w, columns)
    ensures n <= |file| - w.end
    ensures var ws := Pages(file, w, columns, true, n);
            ws[|ws| - 1].end == |file| && Covers(ws, w.start, |file|)
    decreases |file| - w.end
  {
    hide IsServed, PageLater;
    assert w.start <= w.end <= |file| by { ServedInside(file, w, columns); }
    if w.end == |file| {
      n := 0;
      assert [w][0] == w;
    } else {
      LaterProgress(file, w, columns);
      var p := PageLater(file, w, columns);
      ServedInside(file, p, columns);
      var k := LaterReachesEnd(file, p, columns);
      n := k + 1;
      CoversMore(w, Pages(file, p, columns, true, k), w.start, |file|, p.start, |file|);
    }
  }

  lemma ServedInside(file: seq<Byte>, w: Window, columns: int)
    requires IsServed(file, w, columns)
    ensures w.start <= w.end <= |file|
  {
  }

  /** Paging earlier from any served window of any file comes to the beginning of the file or to a
      stuck window within its first three bytes, and shows every byte on the way.  A file that
      begins with no continuation byte, as every valid one does, or with more than three, has no
      stuck window. */
  lemma {:induction false} EarlierReachesStart(file: seq<Byte>, w: Window, columns: int) returns (n: nat)
    requires IsServed(file, w, columns)
    ensures n <= w.start
    ensures var ws := Pages(file, w, columns, false, n);
            var last := ws[|ws| - 1];
            && Covers(ws, last.start, w.end) && last.start <= last.end
            && (last.start == 0 || (IsStuck(file, last) && 0 < last.start <= Lead(file) <= 3))
    decreases w.start
  {
    hide IsServed, PageEarlier, Lead;
    assert w.start <= w.end <= |file| by { ServedInside(file, w, columns); }
    if w.start == 0 || IsStuck(file, w) {
      n := 0;
      assert [w][0] == w;
    } else {
      EarlierProgress(file, w, columns);
      var p := PageEarlier(file, w, columns);
      ServedInside(file, p, columns);
      var k := EarlierReachesStart(file, p, columns);
      n := k + 1;
      var ws := Pages(file, p, columns, false, k);
      CoversMore(w, ws, ws[|ws| - 1].start, w.end, ws[|ws| - 1].start, p.end);
    }
  }

  lemma ValidStartsClean(file: seq<Byte>)
    requires IsValid(file)
    ensures Lead(file) == 0
  {
    if file != [] {
      FirstByte(file);
    }
  }

  // ---------------------------------------------------------------- the view

  datatype Viewport = Viewport(scrollTop: int, clientHeight: int, scrollHeight: int)

  class TerminalView {
    const file: seq<Byte>  // the archive; its size is the task's recorded log size
    const columns: int
    var rangeStart: nat
    var rangeBytes: nat
    var direction: Direction
    var followingLatest: bool
    var edgeReady: bool
    var edgeLoading: bool
    var renderedStart: nat
    var renderedEnd: nat
    var streamOffset: nat
    var previousScrollTop: int

    function Rendered(): Window
      reads this
    {
      Window(renderedStart, renderedEnd)
    }

    /** The window on screen was served, and the stream has not passed the end of the file. */
    ghost predicate Valid()
      reads this
    {
      IsServed(file, Rendered(), columns) && renderedEnd <= streamOffset <= |file|
    }

    constructor (file: seq<Byte>, columns: int)
      ensures this.file == file && this.columns == columns && Valid()
    {
      this.file, this.columns := file, columns;
      rangeStart, rangeBytes, direction, followingLatest := 0, 0, Tail, true;
      edgeReady, edgeLoading, previousScrollTop := false, false, 0;
      renderedStart, renderedEnd, streamOffset := 0, 0, 0;
      new;
      ShortFits(file[0..0], Clamp(columns));
    }

    /** A following view whose stream has run past the rows on screen. */
    predicate Behind()
      reads this
    {
      followingLatest && streamOffset > renderedEnd
    }

    predicate Ready()
      reads this
    {
      edgeReady && !edgeLoading
    }

    predicate WantsEarlier(viewport: Viewport, deltaY: Option<int>)
      reads this
    {
      && viewport.scrollTop <= 1
      && (viewport.scrollTop < previousScrollTop || (deltaY.Some? && deltaY.value < 0))
      && (renderedStart > 0 || Behind())
    }

    predicate WantsLater(viewport: Viewport, deltaY: Option<int>)
      reads this
    {
      && viewport.scrollTop + viewport.clientHeight >= viewport.scrollHeight - 1
      && (viewport.scrollTop > previousScrollTop || (deltaY.Some? && deltaY.value > 0))
      && !followingLatest && renderedEnd < |file|
    }

    /** The rows an earlier page starts from: those on screen, or the newest ones of a view that is behind. */
    function Anchor(): Window
      reads this
    {
      if Behind() then Serve(file, Window(Max(0, streamOffset - WINDOW_BYTES), streamOffset), columns, Tail)
      else Rendered()
    }

    /** `loadAtEdge`: at an edge of the viewport, choose the next byte range.
        `reachable` says whether the window request of a view that is behind is answered. */
    method LoadAtEdge(viewport: Viewport, deltaY: Option<int>, reachable: bool)
      requires Valid()
      modifies this
      ensures Valid() && edgeReady == old(edgeReady)
      ensures old(!Ready()) ==> unchanged(this)
      ensures old(Ready()) ==> previousScrollTop == viewport.scrollTop
      ensures old(Ready()) ==>
                var up := viewport.scrollTop < old(previousScrollTop) || (deltaY.Some? && deltaY.value < 0);
                var down := viewport.scrollTop > old(previousScrollTop) || (deltaY.Some? && deltaY.value > 0);
                var overrun := old(followingLatest) && old(streamOffset) > old(renderedEnd);
                var earlier := viewport.scrollTop <= 1 && up && (old(renderedStart) > 0 || overrun);
                var later := viewport.scrollTop + viewport.clientHeight >= viewport.scrollHeight - 1 && down
                             && !old(followingLatest) && old(renderedEnd) < |file|;
                && edgeLoading == (if earlier then reachable || !overrun else later)
                && (edgeLoading ==> direction == if earlier then Earlier else Later)
      ensures old(Ready()) ==>
                if old(WantsEarlier(viewport, deltaY)) then edgeLoading == (reachable || !old(Behind()))
                else edgeLoading == old(WantsLater(viewport, deltaY))
      ensures old(Ready()) && edgeLoading ==>
                if old(WantsEarlier(viewport, deltaY))
                then Chosen(Earlier, old(Anchor()), EarlierRange(Rendered()))
                else Chosen(Later, old(Rendered()), LaterRange(Rendered(), |file|))
      ensures !edgeLoading ==> Rendered() == old(Rendered()) && followingLatest == old(followingLatest)
    {
      hide Serve, IsServed, LaterRange, EarlierRange, Cost;
      if !edgeReady || edgeLoading {
        return;
      }
      var movedUp := viewport.scrollTop < previousScrollTop || (deltaY.Some? && deltaY.value < 0);
      var movedDown := viewport.scrollTop > previousScrollTop || (deltaY.Some? && deltaY.value > 0);
      previousScrollTop := viewport.scrollTop;
      var size := Max(|file|, streamOffset);
      var atTop := viewport.scrollTop <= 1;
      var atBottom := viewport.scrollTop + viewport.clientHeight >= viewport.scrollHeight - 1;
      if atTop && movedUp && (renderedStart > 0 || (followingLatest && streamOffset > renderedEnd)) {
        StartEarlier(reachable);
      } else if atBottom && movedDown && !followingLatest && renderedEnd < size {
        StartLater(size);
      }
    }

    /** The view is loading the range `r` in `direction`, chosen from the rows `from`. */
    ghost predicate Chosen(direction: Direction, from: Window, r: Window)
      reads this
    {
      && this.direction == direction && !followingLatest
      && Rendered() == from && Window(rangeStart, rangeStart + rangeBytes) == r
    }

    method StartEarlier(reachable: bool)
      requires Valid() && Ready()
      modifies this
      ensures Valid() && edgeReady == old(edgeReady) && edgeLoading == (reachable || !old(Behind()))
      ensures previousScrollTop == old(previousScrollTop)
      ensures edgeLoading ==> Chosen(Earlier, old(Anchor()), EarlierRange(Rendered()))
      ensures edgeLoading && old(followingLatest) && old(streamOffset) > old(renderedEnd) ==>
                var latest := Window(Max(0, old(streamOffset) - WINDOW_BYTES), old(streamOffset));
                Rendered() == Serve(file, latest, columns, Tail)
      ensures !edgeLoading ==> Rendered() == old(Rendered()) && followingLatest == old(followingLatest)
    {
      hide Cost, WindowOf, Clip;
      edgeLoading := true;
      if followingLatest && streamOffset > renderedEnd {
        if !reachable {
          edgeLoading := false;
          return;
        }
        var start := Max(0, streamOffset - WINDOW_BYTES);
        var bounds := TerminalWindow(Some(file), start, streamOffset, columns, Tail, None);
        ServeIsServed(file, Window(start, streamOffset), columns, Tail);
        ServeEnd(file, Window(start, streamOffset), columns);
        renderedStart, renderedEnd := bounds.start, bounds.end;
      }
      var overlap := Min(OVERLAP_BYTES, (renderedEnd - renderedStart) / 4);
      var previousEnd := renderedStart + overlap;
      var previousStart := Max(0, previousEnd - WINDOW_BYTES);
      followingLatest, direction := false, Earlier;
      rangeBytes, rangeStart := previousEnd - previousStart, previousStart;
    }

    method StartLater(size: nat)
      requires Valid() && Ready() && !followingLatest && renderedEnd < size == |file|
      modifies this
      ensures Valid() && edgeReady == old(edgeReady) && edgeLoading
      ensures previousScrollTop == old(previousScrollTop)
      ensures Chosen(Later, old(Rendered()), LaterRange(Rendered(), |file|))
    {
      hide Cost;
      edgeLoading := true;
      var overlap := Min(OVERLAP_BYTES, (renderedEnd - renderedStart) / 4);
      var nextStart := Max(0, renderedEnd - overlap);
      var nextEnd := Min(size, nextStart + WINDOW_BYTES);
      rangeBytes := nextEnd - nextStart;
      followingLatest, direction := false, Later;
      rangeStart := nextStart;
    }

    /** The new socket for the chosen range, up to its `window` message. */
    method Reopen()
      requires Valid() && edgeLoading && !followingLatest
      modifies this
      ensures Valid() && !edgeLoading && edgeReady
      ensures Rendered() == Serve(file, Window(old(rangeStart), old(rangeStart + rangeBytes)), columns, old(direction))
      ensures followingLatest == false && direction == old(direction)
    {
      hide Cost, WindowOf, Clip;
      var endOffset := Min(|file|, rangeStart + rangeBytes);
      var offset := Max(0, rangeStart);
      var end := Max(offset, endOffset);
      var bounds := TerminalWindow(Some(file), offset, end, columns, direction, None);
      ServeIsServed(file, Window(rangeStart, rangeStart + rangeBytes), columns, direction);
      renderedStart, renderedEnd, streamOffset := bounds.start, bounds.end, bounds.end;
      edgeLoading, edgeReady := false, true;
    }

    /** One scroll event and, if it asks for another range, the server's answer.  Scrolling past the
        lower edge always moves on; past the upper edge, it moves back exactly if the rows it starts
        from are neither the first ones nor stuck. */
    method ScrollPast(viewport: Viewport, deltaY: Option<int>, reachable: bool)
      requires Valid()
      modifies this
      ensures Valid()
      ensures old(!Ready()) ==> unchanged(this)
      ensures old(Ready()) ==> Ready()
      ensures old(Ready()) ==>
                if old(WantsEarlier(viewport, deltaY)) && (reachable || !old(Behind())) then
                  && !followingLatest && old(Anchor()).start <= renderedEnd && old(Anchor().start <= Anchor().end)
                  && (renderedStart < old(Anchor()).start <==> old(Anchor()).start > 0 && !IsStuck(file, old(Anchor())))
                else if old(!WantsEarlier(viewport, deltaY) && WantsLater(viewport, deltaY)) then
                  !followingLatest && renderedStart <= old(renderedEnd) < renderedEnd
                else Rendered() == old(Rendered()) && followingLatest == old(followingLatest)
    {
      hide Cost, WindowOf, Clip, Serve, IsServed, IsStuck;
      if !edgeReady || edgeLoading {
        return;
      }
      LoadAtEdge(viewport, deltaY, reachable);
      if edgeLoading {
        ghost var w := Rendered();
        ServedInside(file, w, columns);
        if direction == Later {
          LaterProgress(file, w, columns);
        } else if w.start > 0 {
          EarlierProgress(file, w, columns);
        }
        Reopen();
      }
    }
  }

  lemma ServeEnd(file: seq<Byte>, r: Window, columns: int)
    requires r.start <= r.end <= |file|
    ensures Serve(file, r, columns, Tail).end <= r.end
  {
    hide Cost;
    WindowFits(file, r.start, Max(r.start, Min(|file|, r.end)), columns, Tail, None);
  }
}
