/** service.py `search_log`: a literal, case-insensitive search in blocks of one MiB. */
module LogSearch {
  import opened Collections
  import opened Wrappers
  import opened Utf8

  const BLOCK := 1024 * 1024
  const OVERLAP := 4096

  /** Text as code points. */
  type Query = seq<int>

  /** Any folding of single characters. */
  type Folding = int -> int

  // ---------------------------------------------------------------- occurrences

  /** How many bytes `q` takes at the start of `s`, if it occurs there.  Bytes that belong to no
      well-formed character match nothing. */
  function MatchAt(s: seq<Byte>, q: Query, fold: Folding): (r: Option<nat>)
    ensures r.Some? ==> |q| <= r.value <= |s| && r.value <= 4 * |q|
    decreases |q|
  {
    if q == [] then Some(0)
    else
      var n := CharLength(s);
      if n > 0 && fold(CodePoint(s)) == fold(q[0]) then
        var rest := MatchAt(s[n..], q[1..], fold);
        if rest.Some? then Some(n + rest.value) else None
      else None
  }

  predicate Occurs(file: seq<Byte>, q: Query, fold: Folding, p: nat) {
    p <= |file| && MatchAt(file[p..], q, fold).Some?
  }

  function EndOf(file: seq<Byte>, q: Query, fold: Folding, p: nat): (e: nat)
    requires Occurs(file, q, fold, p)
    ensures p + |q| <= e <= |file| && e <= p + 4 * |q|
  {
    p + MatchAt(file[p..], q, fold).value
  }

  /** No proper beginning of `q` is also an end of it, up to folding. */
  ghost predicate BorderFree(q: Query, fold: Folding) {
    forall k :: 0 < k < |q| ==> !IsBorder(q, fold, k)
  }

  predicate IsBorder(q: Query, fold: Folding, k: nat) {
    forall i :: 0 <= i < |q| - k ==> fold(q[k + i]) == fold(q[i])
  }

  /** A character that starts inside an occurrence starts one of its characters. */
  lemma {:induction false} Aligned(s: seq<Byte>, q: Query, fold: Folding, j: nat) returns (k: nat)
    requires MatchAt(s, q, fold).Some? && j < MatchAt(s, q, fold).value && CharLength(s[j..]) > 0
    ensures k < |q| && (j > 0 ==> k > 0) && MatchAt(s[j..], q[k..], fold).Some?
    decreases |q|
  {
    if j == 0 {
      k := 0;
      assert s[0..] == s && q[0..] == q;
    } else {
      var n := CharLength(s);
      if j < n {
        CharShape(s, j);
        CharShape(s[j..], 0);
        assert false;
      }
      DropDrop(s, n, j - n);
      var k' := Aligned(s[n..], q[1..], fold, j - n);
      k := k' + 1;
      assert q[1..][k'..] == q[k..];
    }
  }

  /** Two texts that match at one place agree as far as both go. */
  lemma {:induction false} BothMatch(s: seq<Byte>, a: Query, b: Query, fold: Folding, i: nat)
    requires MatchAt(s, a, fold).Some? && MatchAt(s, b, fold).Some? && i < |a| && i < |b|
    ensures fold(a[i]) == fold(b[i])
    decreases |a|
  {
    if i > 0 {
      BothMatch(s[CharLength(s)..], a[1..], b[1..], fold, i - 1);
    }
  }

  /** Occurrences of a border-free query do not overlap. */
  lemma Disjoint(file: seq<Byte>, q: Query, fold: Folding, p: nat, r: nat)
    requires BorderFree(q, fold) && q != []
    requires Occurs(file, q, fold, p) && Occurs(file, q, fold, r) && p < r
    ensures EndOf(file, q, fold, p) <= r
  {
    hide MatchAt, CharLength;
    if r < EndOf(file, q, fold, p) {
      DropDrop(file, p, r - p);
      FirstChar(file[r..], q, fold);
      var k := Aligned(file[p..], q, fold, r - p);
      BothMatchAll(file[r..], q, fold, k);
    }
  }

  lemma FirstChar(s: seq<Byte>, q: Query, fold: Folding)
    requires q != [] && MatchAt(s, q, fold).Some?
    ensures CharLength(s) > 0
  {
  }

  lemma BothMatchAll(s: seq<Byte>, q: Query, fold: Folding, k: nat)
    requires k < |q| && MatchAt(s, q, fold).Some? && MatchAt(s, q[k..], fold).Some?
    ensures IsBorder(q, fold, k)
  {
    hide MatchAt;
    forall i | 0 <= i < |q| - k ensures fold(q[k + i]) == fold(q[i]) {
      BothMatch(s, q[k..], q, fold, i);
    }
  }

  lemma CharShorter(s: seq<Byte>, t: seq<Byte>)
    requires 0 < CharLength(s + t) <= |s|
    ensures CharLength(s) == CharLength(s + t) && CodePoint(s) == CodePoint(s + t)
  {
    assert forall i :: 0 <= i < |s| ==> (s + t)[i] == s[i];
  }

  /** What occurs in the bytes read so far occurs in the file, and what ends among them is seen. */
  lemma {:induction false} MatchInPrefix(s: seq<Byte>, t: seq<Byte>, q: Query, fold: Folding)
    ensures MatchAt(s, q, fold).Some? ==> MatchAt(s + t, q, fold) == MatchAt(s, q, fold)
    ensures MatchAt(s + t, q, fold).Some? && MatchAt(s + t, q, fold).value <= |s| ==>
              MatchAt(s, q, fold) == MatchAt(s + t, q, fold)
    decreases |q|
  {
    hide CharLength, CodePoint;
    if q != [] {
      var n := CharLength(s + t);
      if CharLength(s) > 0 {
        CharStable(s, t);
      }
      if 0 < n <= |s| {
        CharShorter(s, t);
        assert (s + t)[n..] == s[n..] + t;
        MatchInPrefix(s[n..], t, q[1..], fold);
      }
    }
  }

  // ---------------------------------------------------------------- what is reported

  /** A hit: its byte offset in the file and its line, counted from one. */
  datatype Hit = Hit(offset: nat, line: nat)

  predicate IsHit(file: seq<Byte>, q: Query, fold: Folding, h: Hit) {
    Occurs(file, q, fold, h.offset) && h.line == Occurrences(NEWLINE, file[..h.offset]) + 1
  }

  ghost predicate Reported(items: seq<Hit>, p: nat) {
    exists i :: 0 <= i < |items| && items[i].offset == p
  }

  /** True hits in the order of the file, each once. */
  ghost predicate InOrder(file: seq<Byte>, q: Query, fold: Folding, items: seq<Hit>) {
    && (forall i :: 0 <= i < |items| ==> IsHit(file, q, fold, items[i]))
    && (forall i, j :: 0 <= i < j < |items| ==> items[i].offset < items[j].offset)
  }

  ghost predicate AllHits(file: seq<Byte>, q: Query, fold: Folding, items: seq<Hit>) {
    forall i :: 0 <= i < |items| ==> IsHit(file, q, fold, items[i])
  }

  /** The hits from the `n`-th on end before `p`. */
  ghost predicate EndBy(file: seq<Byte>, q: Query, fold: Folding, items: seq<Hit>, n: nat, p: nat) {
    forall i :: n <= i < |items| && Occurs(file, q, fold, items[i].offset) ==>
      EndOf(file, q, fold, items[i].offset) <= p
  }

  /** The hits from the `n`-th on do not overlap. */
  ghost predicate Apart(file: seq<Byte>, q: Query, fold: Folding, items: seq<Hit>, n: nat) {
    forall i, j :: n <= i < j < |items| && Occurs(file, q, fold, items[i].offset) ==>
      EndOf(file, q, fold, items[i].offset) <= items[j].offset
  }

  lemma OneMoreHit(file: seq<Byte>, q: Query, fold: Folding, items: seq<Hit>, n: nat, h: Hit)
    requires AllHits(file, q, fold, items) && EndBy(file, q, fold, items, n, h.offset) && Apart(file, q, fold, items, n)
    requires IsHit(file, q, fold, h) && n <= |items|
    ensures AllHits(file, q, fold, items + [h]) && Apart(file, q, fold, items + [h], n)
    ensures EndBy(file, q, fold, items + [h], n, EndOf(file, q, fold, h.offset))
  {
  }

  lemma LaterEnd(file: seq<Byte>, q: Query, fold: Folding, items: seq<Hit>, n: nat, p: nat, r: nat)
    requires EndBy(file, q, fold, items, n, p) && p <= r
    ensures EndBy(file, q, fold, items, n, r)
  {
  }

  lemma NoHits(file: seq<Byte>, q: Query, fold: Folding, items: seq<Hit>, p: nat)
    ensures EndBy(file, q, fold, items, |items|, p) && Apart(file, q, fold, items, |items|)
    ensures AllHits(file, q, fold, [])
  {
  }

  /** The hits are all occurrences that end within the first `seen` bytes, or that end later but
      start before `from`. */
  ghost predicate Complete(file: seq<Byte>, q: Query, fold: Folding, items: seq<Hit>, seen: nat, from: nat, read: nat) {
    forall p: nat :: Occurs(file, q, fold, p) ==>
      (Reported(items, p) <==>
         EndOf(file, q, fold, p) <= seen || (p < from && EndOf(file, q, fold, p) <= read))
  }

  /** The state between two matches of a block: `base` is where the block's bytes start in the file. */
  ghost predicate Scanned(file: seq<Byte>, q: Query, fold: Folding, items: seq<Hit>, seen: nat, from: nat, read: nat) {
    && q != [] && BorderFree(q, fold) && seen <= read <= |file|
    && InOrder(file, q, fold, items)
    && Complete(file, q, fold, items, seen, from, read)
  }

  lemma StartScan(file: seq<Byte>, q: Query, fold: Folding)
    requires q != [] && BorderFree(q, fold)
    ensures Scanned(file, q, fold, [], 0, 0, 0)
  {
    forall p: nat | Occurs(file, q, fold, p) ensures EndOf(file, q, fold, p) > 0 {
    }
  }

  /** The bytes of a block show exactly the occurrences of the file that lie in it. */
  lemma BlockShows(file: seq<Byte>, q: Query, fold: Folding, read: nat, i: nat)
    requires i <= read <= |file|
    ensures var m := MatchAt(file[i..read], q, fold);
            && (m.Some? ==> Occurs(file, q, fold, i) && EndOf(file, q, fold, i) == i + m.value)
            && (Occurs(file, q, fold, i) && EndOf(file, q, fold, i) <= read ==> m.Some?)
  {
    assert file[i..] == file[i..read] + file[read..];
    MatchInPrefix(file[i..read], file[read..], q, fold);
  }

  /** The next position of a block where nothing new is to be reported. */
  lemma ScanPasses(file: seq<Byte>, q: Query, fold: Folding, items: seq<Hit>, seen: nat, from: nat, to: nat, read: nat)
    requires Scanned(file, q, fold, items, seen, from, read) && from <= to
    requires forall p: nat :: from <= p < to && Occurs(file, q, fold, p) ==>
               EndOf(file, q, fold, p) <= seen || EndOf(file, q, fold, p) > read
    ensures Scanned(file, q, fold, items, seen, to, read)
  {
  }

  /** A new occurrence lies behind all reported ones. */
  lemma ScanReports(file: seq<Byte>, q: Query, fold: Folding, items: seq<Hit>, seen: nat, p: nat, read: nat, line: nat)
    requires Scanned(file, q, fold, items, seen, p, read)
    requires Occurs(file, q, fold, p) && seen < EndOf(file, q, fold, p) <= read
      && line == Occurrences(NEWLINE, file[..p]) + 1
    ensures Scanned(file, q, fold, items + [Hit(p, line)], seen, p + 1, read)
    ensures forall i :: 0 <= i < |items| ==> items[i].offset < p
  {
    var after := items + [Hit(p, line)];
    forall i | 0 <= i < |items| ensures items[i].offset < p {
      var r := items[i].offset;
      assert IsHit(file, q, fold, items[i]) && Reported(items, r);
      assert r != p;
      if r > p {
        Disjoint(file, q, fold, p, r);
      }
    }
    assert after[|items|].offset == p;
    forall r: nat | Occurs(file, q, fold, r)
      ensures Reported(after, r) <==>
                EndOf(file, q, fold, r) <= seen || (r < p + 1 && EndOf(file, q, fold, r) <= read)
    {
      ReportedSnoc(items, Hit(p, line), r);
    }
  }

  lemma ReportedSnoc(items: seq<Hit>, h: Hit, p: nat)
    ensures Reported(items + [h], p) <==> Reported(items, p) || h.offset == p
  {
    var after := items + [h];
    assert after[|items|] == h;
    assert forall i :: 0 <= i < |items| ==> after[i] == items[i];
  }

  /** Everything that ends in a block has been seen when the block ends, because the overlap is
      longer than any occurrence. */
  lemma BlockEnds(file: seq<Byte>, q: Query, fold: Folding, items: seq<Hit>, seen: nat, read: nat)
    requires Scanned(file, q, fold, items, seen, read, read)
    ensures Scanned(file, q, fold, items, read, 0, read)
  {
  }

  lemma BlockStarts(file: seq<Byte>, q: Query, fold: Folding, items: seq<Hit>, seen: nat, base: nat, read: nat)
    requires Scanned(file, q, fold, items, seen, 0, seen) && seen <= read <= |file|
    requires 4 * |q| <= OVERLAP && (base == 0 || base + OVERLAP <= seen)
    ensures Scanned(file, q, fold, items, seen, base, read)
  {
    forall p: nat | Occurs(file, q, fold, p)
      ensures Reported(items, p) <==>
                EndOf(file, q, fold, p) <= seen || (p < base && EndOf(file, q, fold, p) <= read)
    {
      var e := EndOf(file, q, fold, p);
    }
  }

  /** After an occurrence at `p`, no other starts before it ends. */
  lemma ScanSkips(file: seq<Byte>, q: Query, fold: Folding, items: seq<Hit>, seen: nat, p: nat, from: nat, read: nat)
    requires Scanned(file, q, fold, items, seen, from, read) && Occurs(file, q, fold, p)
    requires (from == p && EndOf(file, q, fold, p) <= seen) || from == p + 1
    ensures Scanned(file, q, fold, items, seen, EndOf(file, q, fold, p), read)
  {
    forall r: nat | from <= r < EndOf(file, q, fold, p) && Occurs(file, q, fold, r)
      ensures EndOf(file, q, fold, r) <= seen || EndOf(file, q, fold, r) > read
    {
      if r > p {
        Disjoint(file, q, fold, p, r);
      }
    }
    ScanPasses(file, q, fold, items, seen, from, EndOf(file, q, fold, p), read);
  }

  /** The hits are the first occurrences of the file, and there are more. */
  ghost predicate CutAfter(file: seq<Byte>, q: Query, fold: Folding, items: seq<Hit>) {
    && (exists p: nat :: Occurs(file, q, fold, p) && !Reported(items, p))
    && (forall p: nat, i :: Occurs(file, q, fold, p) && !Reported(items, p) && 0 <= i < |items| ==> items[i].offset < p)
  }

  lemma CutHere(file: seq<Byte>, q: Query, fold: Folding, items: seq<Hit>, seen: nat, p: nat, read: nat)
    requires Scanned(file, q, fold, items, seen, p, read)
    requires Occurs(file, q, fold, p) && seen < EndOf(file, q, fold, p) <= read
    ensures CutAfter(file, q, fold, items)
  {
    ScanReports(file, q, fold, items, seen, p, read, Occurrences(NEWLINE, file[..p]) + 1);
    assert !Reported(items, p);
    forall r: nat, i | Occurs(file, q, fold, r) && !Reported(items, r) && 0 <= i < |items| ensures items[i].offset < r {
      if r < p {
        Disjoint(file, q, fold, r, p);
      }
    }
  }

  lemma ScannedFacts(file: seq<Byte>, q: Query, fold: Folding, items: seq<Hit>, seen: nat, from: nat, read: nat)
    requires Scanned(file, q, fold, items, seen, from, read)
    ensures q != [] && InOrder(file, q, fold, items)
  {
  }

  lemma NothingHere(file: seq<Byte>, q: Query, fold: Folding, items: seq<Hit>, seen: nat, from: nat, read: nat)
    requires Scanned(file, q, fold, items, seen, from, read)
    requires Occurs(file, q, fold, from) ==> EndOf(file, q, fold, from) > read
    ensures Scanned(file, q, fold, items, seen, from + 1, read)
  {
    ScanPasses(file, q, fold, items, seen, from, from + 1, read);
  }

  lemma AllReported(file: seq<Byte>, q: Query, fold: Folding, items: seq<Hit>)
    requires Scanned(file, q, fold, items, |file|, 0, |file|)
    ensures InOrder(file, q, fold, items)
    ensures forall p: nat :: Occurs(file, q, fold, p) ==> Reported(items, p)
  {
  }

  // ---------------------------------------------------------------- what the search returns

  /** The result of a search: its hits, and whether it was cut. */
  datatype Found = Found(items: seq<Hit>, truncated: bool)

  /** The matches of one block from position `i` on, from left to right: `file[..seen]` has been
      searched before, and the block ends at `read`. */
  function HitsInBlock(file: seq<Byte>, q: Query, fold: Folding, maxResults: nat, seen: nat, read: nat, i: nat,
                       items: seq<Hit>): Found
    requires q != [] && i <= read <= |file|
    decreases read - i
  {
    if i == read then Found(items, false) else
    match MatchAt(file[i..read], q, fold)
    case None => HitsInBlock(file, q, fold, maxResults, seen, read, i + 1, items)
    case Some(length) =>
      if i + length <= seen then HitsInBlock(file, q, fold, maxResults, seen, read, i + length, items)
      else if |items| >= maxResults then Found(items, true)
      else HitsInBlock(file, q, fold, maxResults, seen, read, i + length,
                      items + [Hit(i, Occurrences(NEWLINE, file[..i]) + 1)])
  }

  /** The end of the block that starts at `seen`, and the start of its overlap. */
  function BlockEnd(file: seq<Byte>, seen: nat): (read: nat)
    requires seen <= |file|
    ensures seen <= read <= |file| && (seen < |file| ==> seen < read)
    ensures read - seen <= BLOCK && (read - seen < BLOCK ==> read == |file|)
  {
    if |file| - seen < BLOCK then |file| else seen + BLOCK
  }

  function OverlapStart(seen: nat): (base: nat)
    ensures base <= seen
  {
    if seen < OVERLAP then 0 else seen - OVERLAP
  }

  function HitsFrom(file: seq<Byte>, q: Query, fold: Folding, maxResults: nat, seen: nat, items: seq<Hit>): Found
    requires q != [] && seen <= |file|
    decreases |file| - seen
  {
    if seen == |file| then Found(items, false) else
    var read := BlockEnd(file, seen);
    var r := HitsInBlock(file, q, fold, maxResults, seen, read, OverlapStart(seen), items);
    if r.truncated then r else HitsFrom(file, q, fold, maxResults, read, r.items)
  }

  function SearchOf(path: Option<seq<Byte>>, q: Query, fold: Folding, maxResults: nat): Found {
    if q == [] || path.None? then Found([], false) else HitsFrom(path.value, q, fold, maxResults, 0, [])
  }

  /** What one block adds: true hits that do not overlap, no more than it has bytes; and, for a
      border-free query, all that newly end in it. */
  lemma {:induction false} BlockScan(file: seq<Byte>, q: Query, fold: Folding, maxResults: nat,
      seen: nat, read: nat, i: nat,
                                     items: seq<Hit>, n: nat)
    requires q != [] && seen <= read <= |file| && i <= read && n <= |items| <= maxResults
    requires AllHits(file, q, fold, items) && EndBy(file, q, fold, items, n, i) && Apart(file, q, fold, items, n)
    requires BorderFree(q, fold) ==> Scanned(file, q, fold, items, seen, i, read)
    ensures var r := HitsInBlock(file, q, fold, maxResults, seen, read, i, items);
            && |items| <= |r.items| <= maxResults && |r.items| <= |items| + read - i
            && AllHits(file, q, fold, r.items) && Apart(file, q, fold, r.items, n)
            && (r.truncated ==> |r.items| == maxResults)
            && (BorderFree(q, fold) ==>
                 if r.truncated then InOrder(file, q, fold, r.items) && CutAfter(file, q, fold, r.items)
                 else Scanned(file, q, fold, r.items, seen, read, read))
    decreases read - i
  {
    hide Scanned, Occurs, InOrder, CutAfter, MatchAt, Occurrences, BorderFree, AllHits, EndBy, Apart;
    if i < read {
      var m := MatchAt(file[i..read], q, fold);
      BlockShows(file, q, fold, read, i);
      if m.None? {
        FreePasses(file, q, fold, items, seen, i, read);
        LaterEnd(file, q, fold, items, n, i, i + 1);
        BlockScan(file, q, fold, maxResults, seen, read, i + 1, items, n);
      } else if i + m.value <= seen {
        FreeSkips(file, q, fold, items, seen, i, read);
        LaterEnd(file, q, fold, items, n, i, i + m.value);
        BlockScan(file, q, fold, maxResults, seen, read, i + m.value, items, n);
      } else if |items| >= maxResults {
        FreeCut(file, q, fold, items, seen, i, read);
      } else {
        var h := Hit(i, Occurrences(NEWLINE, file[..i]) + 1);
        OneMoreHit(file, q, fold, items, n, h);
        FreeReports(file, q, fold, items, seen, i, read);
        BlockScan(file, q, fold, maxResults, seen, read, i + m.value, items + [h], n);
      }
    }
  }

  // ---- the bookkeeping that only border-free queries need

  lemma FreePasses(file: seq<Byte>, q: Query, fold: Folding, items: seq<Hit>, seen: nat, i: nat, read: nat)
    requires BorderFree(q, fold) ==> Scanned(file, q, fold, items, seen, i, read)
    requires Occurs(file, q, fold, i) ==> EndOf(file, q, fold, i) > read
    ensures BorderFree(q, fold) ==> Scanned(file, q, fold, items, seen, i + 1, read)
  {
    hide BorderFree, Scanned, Occurs;
    if BorderFree(q, fold) {
      NothingHere(file, q, fold, items, seen, i, read);
    }
  }

  lemma FreeSkips(file: seq<Byte>, q: Query, fold: Folding, items: seq<Hit>, seen: nat, i: nat, read: nat)
    requires BorderFree(q, fold) ==> Scanned(file, q, fold, items, seen, i, read)
    requires Occurs(file, q, fold, i) && EndOf(file, q, fold, i) <= seen
    ensures BorderFree(q, fold) ==> Scanned(file, q, fold, items, seen, EndOf(file, q, fold, i), read)
  {
    hide BorderFree, Scanned, Occurs;
    if BorderFree(q, fold) {
      ScanSkips(file, q, fold, items, seen, i, i, read);
    }
  }

  lemma FreeCut(file: seq<Byte>, q: Query, fold: Folding, items: seq<Hit>, seen: nat, i: nat, read: nat)
    requires BorderFree(q, fold) ==> Scanned(file, q, fold, items, seen, i, read)
    requires Occurs(file, q, fold, i) && seen < EndOf(file, q, fold, i) <= read
    ensures BorderFree(q, fold) ==> InOrder(file, q, fold, items) && CutAfter(file, q, fold, items)
  {
    hide BorderFree, Scanned, Occurs, InOrder, CutAfter;
    if BorderFree(q, fold) {
      ScannedFacts(file, q, fold, items, seen, i, read);
      CutHere(file, q, fold, items, seen, i, read);
    }
  }

  lemma FreeReports(file: seq<Byte>, q: Query, fold: Folding, items: seq<Hit>, seen: nat, i: nat, read: nat)
    requires BorderFree(q, fold) ==> Scanned(file, q, fold, items, seen, i, read)
    requires Occurs(file, q, fold, i) && seen < EndOf(file, q, fold, i) <= read
    ensures BorderFree(q, fold) ==>
      Scanned(file, q, fold, items + [Hit(i, Occurrences(NEWLINE, file[..i]) + 1)], seen, EndOf(file, q, fold, i), read)
  {
    hide BorderFree, Scanned, Occurs, Occurrences;
    if BorderFree(q, fold) {
      var line := Occurrences(NEWLINE, file[..i]) + 1;
      ScanReports(file, q, fold, items, seen, i, read, line);
      ScanSkips(file, q, fold, items + [Hit(i, line)], seen, i, i + 1, read);
    }
  }

  lemma FreeStart(file: seq<Byte>, q: Query, fold: Folding)
    requires q != []
    ensures BorderFree(q, fold) ==> Scanned(file, q, fold, [], 0, 0, 0)
  {
    if BorderFree(q, fold) {
      StartScan(file, q, fold);
    }
  }

  lemma FreeBlockStarts(file: seq<Byte>, q: Query, fold: Folding, items: seq<Hit>, seen: nat, read: nat)
    requires BorderFree(q, fold) ==> Scanned(file, q, fold, items, seen, 0, seen)
    requires seen <= read <= |file| && 4 * |q| <= OVERLAP
    ensures BorderFree(q, fold) ==> Scanned(file, q, fold, items, seen, OverlapStart(seen), read)
  {
    hide BorderFree, Scanned;
    if BorderFree(q, fold) {
      BlockStarts(file, q, fold, items, seen, OverlapStart(seen), read);
    }
  }

  lemma FreeBlockEnds(file: seq<Byte>, q: Query, fold: Folding, items: seq<Hit>, seen: nat, read: nat)
    requires BorderFree(q, fold) ==> Scanned(file, q, fold, items, seen, read, read)
    ensures BorderFree(q, fold) ==> Scanned(file, q, fold, items, read, 0, read)
  {
    hide BorderFree, Scanned;
    if BorderFree(q, fold) {
      BlockEnds(file, q, fold, items, seen, read);
    }
  }

  lemma FreeReported(file: seq<Byte>, q: Query, fold: Folding, items: seq<Hit>)
    requires BorderFree(q, fold) ==> Scanned(file, q, fold, items, |file|, 0, |file|)
    ensures BorderFree(q, fold) ==>
              InOrder(file, q, fold, items) && forall p: nat :: Occurs(file, q, fold, p) ==> Reported(items, p)
  {
    hide BorderFree, Scanned;
    if BorderFree(q, fold) {
      AllReported(file, q, fold, items);
    }
  }

  // ---- all blocks

  lemma {:induction false} BlocksScan(file: seq<Byte>, q: Query, fold: Folding, maxResults: nat,
      seen: nat, items: seq<Hit>)
    requires q != [] && 4 * |q| <= OVERLAP && seen <= |file| && |items| <= maxResults && AllHits(file, q, fold, items)
    requires BorderFree(q, fold) ==> Scanned(file, q, fold, items, seen, 0, seen)
    ensures var r := HitsFrom(file, q, fold, maxResults, seen, items);
            && |r.items| <= maxResults && AllHits(file, q, fold, r.items)
            && (r.truncated ==> |r.items| == maxResults)
            && (BorderFree(q, fold) ==>
                 if r.truncated then InOrder(file, q, fold, r.items) && CutAfter(file, q, fold, r.items)
                 else Scanned(file, q, fold, r.items, |file|, 0, |file|))
    decreases |file| - seen
  {
    hide HitsInBlock, Scanned, InOrder, CutAfter, BorderFree, AllHits, EndBy, Apart;
    if seen < |file| {
      var read := BlockEnd(file, seen);
      FreeBlockStarts(file, q, fold, items, seen, read);
      NoHits(file, q, fold, items, OverlapStart(seen));
      BlockScan(file, q, fold, maxResults, seen, read, OverlapStart(seen), items, |items|);
      var r := HitsInBlock(file, q, fold, maxResults, seen, read, OverlapStart(seen), items);
      if !r.truncated {
        FreeBlockEnds(file, q, fold, r.items, seen, read);
        BlocksScan(file, q, fold, maxResults, read, r.items);
      }
    }
  }

  /** What a search returns.  For every query its hits are occurrences of the file with their true
      offset and line.  For a border-free query, in any number of blocks, every occurrence is
      reported once and in order, up to the cut. */
  lemma SearchIs(file: seq<Byte>, q: Query, fold: Folding, maxResults: nat)
    requires q != [] && 4 * |q| <= OVERLAP
    ensures var r := SearchOf(Some(file), q, fold, maxResults);
            && |r.items| <= maxResults && (r.truncated ==> |r.items| == maxResults) && AllHits(file, q, fold, r.items)
            && (BorderFree(q, fold) ==>
                 && InOrder(file, q, fold, r.items)
                 && (if r.truncated then CutAfter(file, q, fold, r.items)
                     else forall p: nat :: Occurs(file, q, fold, p) ==> Reported(r.items, p)))
  {
    hide HitsFrom, Scanned, InOrder, CutAfter, BorderFree, AllHits, Apart, Reported;
    NoHits(file, q, fold, [], 0);
    FreeStart(file, q, fold);
    BlocksScan(file, q, fold, maxResults, 0, []);
    var r := SearchOf(Some(file), q, fold, maxResults);
    if !r.truncated {
      FreeReported(file, q, fold, r.items);
    }
  }

  /** In a file of at most one block the hits do not overlap. */
  lemma OneBlockIsApart(file: seq<Byte>, q: Query, fold: Folding, maxResults: nat)
    requires q != [] && 4 * |q| <= OVERLAP && |file| <= BLOCK
    ensures var r := SearchOf(Some(file), q, fold, maxResults);
            Apart(file, q, fold, r.items, 0) && |r.items| <= |file|
  {
    hide HitsInBlock, Scanned, InOrder, CutAfter, BorderFree, AllHits, EndBy, Apart;
    NoHits(file, q, fold, [], 0);
    FreeStart(file, q, fold);
    if file != [] {
      FreeBlockStarts(file, q, fold, [], 0, |file|);
      BlockScan(file, q, fold, maxResults, 0, |file|, 0, [], 0);
      var r := HitsInBlock(file, q, fold, maxResults, 0, |file|, 0, []);
      assert BlockEnd(file, 0) == |file|;
      assert HitsFrom(file, q, fold, maxResults, |file|, r.items) == Found(r.items, false);
    }
  }

  // ---------------------------------------------------------------- queries with a border

  predicate StartsWith(s: seq<Byte>, c: int, fold: Folding) {
    CharLength(s) > 0 && fold(CodePoint(s)) == fold(c)
  }

  lemma MatchStarts(s: seq<Byte>, q: Query, fold: Folding)
    requires q != [] && MatchAt(s, q, fold).Some?
    ensures StartsWith(s, q[0], fold)
  {
  }

  lemma MatchStep(s: seq<Byte>, q: Query, fold: Folding, n: nat)
    requires q != [] && StartsWith(s, q[0], fold) && n == CharLength(s)
    ensures MatchAt(s, q, fold).Some? <==> MatchAt(s[n..], q[1..], fold).Some?
    ensures MatchAt(s, q, fold).Some? ==> MatchAt(s, q, fold).value == n + MatchAt(s[n..], q[1..], fold).value
  {
  }

  lemma MatchNothing(s: seq<Byte>, fold: Folding)
    ensures MatchAt(s, [], fold) == Some(0)
  {
  }

  lemma QueryParts(q: Query, k: nat)
    requires 0 < k <= |q|
    ensures q[..k][1..] == q[1..][..k - 1] && q[1..][k - 1..] == q[k..] && q[..k][0] == q[0]
  {
  }

  lemma {:induction false} MatchPart(s: seq<Byte>, q: Query, fold: Folding, k: nat) returns (m: nat)
    requires MatchAt(s, q, fold).Some? && k <= |q|
    ensures m <= MatchAt(s, q, fold).value && m >= k
    ensures MatchAt(s, q[..k], fold) == Some(m) && MatchAt(s[m..], q[k..], fold) == Some(MatchAt(s, q, fold).value - m)
    decreases |q|
  {
    hide MatchAt, CharLength, StartsWith;
    if k == 0 {
      m := 0;
      assert s[0..] == s && q[0..] == q && q[..0] == [];
      MatchNothing(s, fold);
    } else {
      var n := CharLength(s);
      MatchStarts(s, q, fold);
      MatchStep(s, q, fold, n);
      var rest := MatchPart(s[n..], q[1..], fold, k - 1);
      m := n + rest;
      QueryParts(q, k);
      MatchStep(s, q[..k], fold, n);
      DropDrop(s, n, rest);
      StartsNonEmpty(s, q[0], fold);
    }
  }

  lemma StartsNonEmpty(s: seq<Byte>, c: int, fold: Folding)
    requires StartsWith(s, c, fold)
    ensures CharLength(s) > 0
  {
  }

  lemma {:induction false} MatchFolded(s: seq<Byte>, a: Query, b: Query, fold: Folding)
    requires |a| == |b| && forall i :: 0 <= i < |a| ==> fold(a[i]) == fold(b[i])
    ensures MatchAt(s, a, fold) == MatchAt(s, b, fold)
    decreases |a|
  {
    hide CharLength, CodePoint;
    if a != [] && CharLength(s) > 0 {
      MatchFolded(s[CharLength(s)..], a[1..], b[1..], fold);
    }
  }

  lemma StartsLonger(a: seq<Byte>, b: seq<Byte>, c: int, fold: Folding)
    requires StartsWith(a, c, fold)
    ensures StartsWith(a + b, c, fold) && CharLength(a + b) == CharLength(a)
  {
    CharStable(a, b);
    CharShorter(a, b);
  }

  lemma {:induction false} MatchJoin(a: seq<Byte>, b: seq<Byte>, p: Query, q: Query, fold: Folding)
    requires MatchAt(a, p, fold) == Some(|a|) && MatchAt(b, q, fold).Some?
    ensures MatchAt(a + b, p + q, fold) == Some(|a| + MatchAt(b, q, fold).value)
    decreases |p|
  {
    hide MatchAt, CharLength, StartsWith;
    if p == [] {
      MatchNothing(a, fold);
      assert a + b == b && p + q == q;
    } else {
      var n := CharLength(a);
      MatchStarts(a, p, fold);
      MatchStep(a, p, fold, n);
      StartsLonger(a, b, p[0], fold);
      DropAppend(a, b, n);
      DropAppend(p, q, 1);
      MatchJoin(a[n..], b, p[1..], q, fold);
      MatchStep(a + b, p + q, fold, n);
    }
  }

  /** A query with a border, which some text `s` spells, has a file with two overlapping occurrences
      of which the search reports at most one, though it is not cut. */
  lemma BorderedQueryMisses(s: seq<Byte>, q: Query, fold: Folding, k: nat) returns (file: seq<Byte>, r: nat)
    requires MatchAt(s, q, fold) == Some(|s|) && 0 < k < |q| && IsBorder(q, fold, k) && 4 * |q| <= OVERLAP
    ensures Occurs(file, q, fold, 0) && Occurs(file, q, fold, r) && 0 < r < EndOf(file, q, fold, 0)
    ensures |file| <= BLOCK
    ensures forall maxResults :: var hits := SearchOf(Some(file), q, fold, maxResults).items;
              !(Reported(hits, 0) && Reported(hits, r))
    ensures !SearchOf(Some(file), q, fold, |file| + 1).truncated
  {
    hide MatchAt, IsBorder, Apart, Reported, SearchOf, AllHits, InOrder, BorderFree;
    assert |s| <= 4 * |q|;
    r := MatchPart(s, q, fold, k);
    file := s[..r] + s;
    assert s == s[..r] + s[r..];
    MatchInPrefix(s[..r], s[r..], q[..k], fold);
    var shared := MatchPart(s, q, fold, |q| - k);
    BorderFolds(q, fold, k);
    MatchFolded(s, q[k..], q[..|q| - k], fold);
    MatchJoin(s[..r], s, q[..k], q[k..], fold);
    assert q[..k] + q[k..] == q;
    assert file[0..] == file && file[r..] == s;
    forall maxResults
      ensures var hits := SearchOf(Some(file), q, fold, maxResults).items;
              !(Reported(hits, 0) && Reported(hits, r))
    {
      OneBlockIsApart(file, q, fold, maxResults);
      BothReported(file, q, fold, SearchOf(Some(file), q, fold, maxResults).items, r);
    }
    OneBlockIsApart(file, q, fold, |file| + 1);
    SearchIs(file, q, fold, |file| + 1);
  }

  lemma BorderFolds(q: Query, fold: Folding, k: nat)
    requires k <= |q| && IsBorder(q, fold, k)
    ensures forall i :: 0 <= i < |q| - k ==> fold(q[k..][i]) == fold(q[..|q| - k][i])
  {
  }

  lemma BothReported(file: seq<Byte>, q: Query, fold: Folding, items: seq<Hit>, r: nat)
    requires Apart(file, q, fold, items, 0) && q != []
    requires Occurs(file, q, fold, 0) && Occurs(file, q, fold, r) && 0 < r < EndOf(file, q, fold, 0)
    ensures !(Reported(items, 0) && Reported(items, r))
  {
    hide Occurs, MatchAt;
    forall i, j | 0 <= i < |items| && 0 <= j < |items| && items[i].offset == 0 ensures items[j].offset != r {
    }
  }

  /** An uncut search of the file has reported every occurrence. */
  ghost predicate FoundAll(file: seq<Byte>, q: Query, fold: Folding, maxResults: nat) {
    var r := SearchOf(Some(file), q, fold, maxResults);
    r.truncated || forall p: nat :: Occurs(file, q, fold, p) ==> Reported(r.items, p)
  }

  /** For every query that some text spells: the search finds all its occurrences in every file, unless
      it is cut, if and only if the query has no border. */
  lemma FindsAllExactlyFor(s: seq<Byte>, q: Query, fold: Folding)
    requires q != [] && 4 * |q| <= OVERLAP && MatchAt(s, q, fold) == Some(|s|)
    ensures (forall file, maxResults :: FoundAll(file, q, fold, maxResults)) <==> BorderFree(q, fold)
  {
    hide SearchOf, MatchAt, Occurs, Reported, IsBorder, AllHits, InOrder, CutAfter;
    if BorderFree(q, fold) {
      forall file, maxResults ensures FoundAll(file, q, fold, maxResults) {
        SearchIs(file, q, fold, maxResults);
      }
    } else {
      var k :| 0 < k < |q| && IsBorder(q, fold, k);
      var file, r := BorderedQueryMisses(s, q, fold, k);
      assert !FoundAll(file, q, fold, |file| + 1);
    }
  }

  // ---------------------------------------------------------------- the program

  /** The line number of a position, computed from the lines before the block. */
  lemma LineOf(file: seq<Byte>, base: nat, absolute: nat, read: nat, i: nat)
    requires base <= absolute <= read <= |file| && base + i <= read
    ensures Occurrences(NEWLINE, file[..absolute]) - Occurrences(NEWLINE, file[base..absolute])
              + Occurrences(NEWLINE, file[base..read][..i])
         == Occurrences(NEWLINE, file[..base + i])
  {
    assert file[..absolute] == file[..base] + file[base..absolute];
    assert file[base..read][..i] == file[base..base + i];
    assert file[..base + i] == file[..base] + file[base..base + i];
    OccurrencesAppend(NEWLINE, file[..base], file[base..absolute]);
    OccurrencesAppend(NEWLINE, file[..base], file[base..base + i]);
  }

  /** The matches of one block, from left to right. */
  method SearchBlock(ghost file: seq<Byte>, q: Query, fold: Folding, maxResults: nat, items0: seq<Hit>,
                     overlap: seq<Byte>, raw: seq<Byte>, absolute: nat, linesSeen: nat)
    returns (items: seq<Hit>, truncated: bool)
    requires |overlap| <= absolute && absolute + |raw| <= |file| && q != []
    requires overlap == file[absolute - |overlap|..absolute] && raw == file[absolute..absolute + |raw|]
    requires linesSeen == Occurrences(NEWLINE, file[..absolute])
    ensures Found(items, truncated) ==
      HitsInBlock(file, q, fold, maxResults, absolute, absolute + |raw|, absolute - |overlap|, items0)
  {
    hide MatchAt, Occurrences;
    var combined := overlap + raw;
    ghost var base, read := absolute - |overlap|, absolute + |raw|;
    assert combined == file[base..read];
    items, truncated := items0, false;
    var i := 0;
    while i < |combined|
      invariant 0 <= i <= |combined| && combined == file[base..read]
      invariant HitsInBlock(file, q, fold, maxResults, absolute, read, base, items0) ==
        HitsInBlock(file, q, fold, maxResults, absolute, read, base + i, items)
      decreases |combined| - i
    {
      var m := MatchAt(combined[i..], q, fold);
      RestOfBlock(file, base, read, i);
      match m {
        case None =>
          i := i + 1;
        case Some(length) =>
          var relativeEnd := i + length - |overlap|;
          if relativeEnd > 0 {
            if |items| >= maxResults {
              return items, true;
            }
            LineOf(file, base, absolute, read, i);
            items := items + [Hit(absolute + i - |overlap|,
                      linesSeen - Occurrences(NEWLINE, overlap) + Occurrences(NEWLINE, combined[..i]) + 1)];
          }
          i := i + length;
      }
    }
  }

  lemma RestOfBlock(file: seq<Byte>, base: nat, read: nat, i: nat)
    requires base + i <= read <= |file|
    ensures file[base..read][i..] == file[base + i..read]
  {
  }

  /** Reads and searches the next block, and keeps the overlap for the one after it. */
  method SearchNext(file: seq<Byte>, q: Query, fold: Folding, maxResults: nat, items0: seq<Hit>,
                    overlap0: seq<Byte>, absolute: nat, linesSeen0: nat, size: nat)
    returns (items: seq<Hit>, truncated: bool, overlap: seq<Byte>, linesSeen: nat)
    requires q != [] && absolute + size <= |file| && AtBlock(file, overlap0, absolute, linesSeen0)
    ensures Found(items, truncated) ==
      HitsInBlock(file, q, fold, maxResults, absolute, absolute + size, OverlapStart(absolute), items0)
    ensures !truncated ==> AtBlock(file, overlap, absolute + size, linesSeen)
  {
    hide HitsInBlock, Occurrences, Tail, AtBlock;
    var raw := file[absolute..absolute + size];
    overlap, linesSeen := overlap0, linesSeen0;
    BlockFacts(file, overlap, absolute, linesSeen);
    items, truncated := SearchBlock(file, q, fold, maxResults, items0, overlap, raw, absolute, linesSeen);
    if !truncated {
      NextBlock(file, overlap, absolute, linesSeen, size);
      linesSeen := linesSeen + Occurrences(NEWLINE, raw);
      overlap := Tail(overlap + raw);
    }
  }

  /** The loop over the blocks. */
  method SearchBlocks(file: seq<Byte>, q: Query, fold: Folding, maxResults: nat)
    returns (items: seq<Hit>, truncated: bool)
    requires q != []
    ensures Found(items, truncated) == HitsFrom(file, q, fold, maxResults, 0, [])
  {
    hide HitsInBlock, Occurrences, AtBlock;
    items, truncated := [], false;
    var overlap: seq<Byte> := [];
    var absolute: nat, linesSeen: nat, remaining: nat := 0, 0, |file|;
    FirstBlock(file);
    while remaining > 0
      invariant absolute + remaining == |file| && AtBlock(file, overlap, absolute, linesSeen) && !truncated
      invariant HitsFrom(file, q, fold, maxResults, 0, []) == HitsFrom(file, q, fold, maxResults, absolute, items)
    {
      var size := if remaining < BLOCK then remaining else BLOCK;
      remaining := remaining - size;
      items, truncated, overlap, linesSeen :=
        SearchNext(file, q, fold, maxResults, items, overlap, absolute, linesSeen, size);
      if truncated {
        return;
      }
      absolute := absolute + size;
    }
  }

  /** `search_log`, for the queries that the route lets through. */
  method SearchLog(path: Option<seq<Byte>>, q: Query, fold: Folding, maxResults: nat)
    returns (items: seq<Hit>, truncated: bool)
    requires 4 * |q| <= OVERLAP
    ensures Found(items, truncated) == SearchOf(path, q, fold, maxResults)
    ensures path.None? || q == [] ==> items == [] && !truncated
    ensures |items| <= maxResults && (truncated ==> |items| == maxResults)
    ensures path.Some? && q != [] ==>
              && AllHits(path.value, q, fold, items)
              && (|path.value| <= BLOCK ==> Apart(path.value, q, fold, items, 0))
    ensures path.Some? && q != [] && BorderFree(q, fold) ==>
              && InOrder(path.value, q, fold, items)
              && (if truncated then CutAfter(path.value, q, fold, items)
                  else forall p: nat :: Occurs(path.value, q, fold, p) ==> Reported(items, p))
  {
    items, truncated := [], false;
    if q == [] || path.None? {
      return;
    }
    hide HitsFrom, Occurs, InOrder, CutAfter, BorderFree, AllHits, Apart, Reported;
    items, truncated := SearchBlocks(path.value, q, fold, maxResults);
    SearchIs(path.value, q, fold, maxResults);
    if |path.value| <= BLOCK {
      OneBlockIsApart(path.value, q, fold, maxResults);
    }
  }

  /** Between two blocks: the overlap is the last bytes read, or all of them. */
  ghost predicate AtBlock(file: seq<Byte>, overlap: seq<Byte>, absolute: nat, linesSeen: nat) {
    && |overlap| <= absolute <= |file| && absolute - |overlap| == OverlapStart(absolute)
    && overlap == file[absolute - |overlap|..absolute]
    && linesSeen == Occurrences(NEWLINE, file[..absolute])
  }

  lemma FirstBlock(file: seq<Byte>)
    ensures AtBlock(file, [], 0, 0)
  {
  }

  lemma BlockFacts(file: seq<Byte>, overlap: seq<Byte>, absolute: nat, linesSeen: nat)
    requires AtBlock(file, overlap, absolute, linesSeen)
    ensures |overlap| <= absolute <= |file| && absolute - |overlap| == OverlapStart(absolute)
    ensures overlap == file[absolute - |overlap|..absolute] && linesSeen == Occurrences(NEWLINE, file[..absolute])
  {
  }

  lemma NextBlock(file: seq<Byte>, overlap: seq<Byte>, absolute: nat, linesSeen: nat, size: nat)
    requires AtBlock(file, overlap, absolute, linesSeen) && absolute + size <= |file|
    ensures var raw := file[absolute..absolute + size];
            AtBlock(file, Tail(overlap + raw), absolute + size, linesSeen + Occurrences(NEWLINE, raw))
  {
    hide Occurrences;
    LinesGrow(file, absolute, absolute + size);
    NextOverlap(file, absolute, size, |overlap|);
  }

  /** `combined[-4096:]` */
  function Tail(combined: seq<Byte>): seq<Byte> {
    if |combined| <= OVERLAP then combined else combined[|combined| - OVERLAP..]
  }

  lemma LinesGrow(file: seq<Byte>, a: nat, b: nat)
    requires a <= b <= |file|
    ensures Occurrences(NEWLINE, file[..b]) == Occurrences(NEWLINE, file[..a]) + Occurrences(NEWLINE, file[a..b])
  {
    assert file[..b] == file[..a] + file[a..b];
    OccurrencesAppend(NEWLINE, file[..a], file[a..b]);
  }

  /** The overlap stays the last bytes read, or all of them. */
  lemma NextOverlap(file: seq<Byte>, absolute: nat, size: nat, o: nat)
    requires o <= absolute && absolute + size <= |file| && absolute - o == OverlapStart(absolute)
    ensures var next := Tail(file[absolute - o..absolute] + file[absolute..absolute + size]);
            && |next| <= absolute + size && absolute + size - |next| == OverlapStart(absolute + size)
            && next == file[absolute + size - |next|..absolute + size]
  {
    assert file[absolute - o..absolute] + file[absolute..absolute + size] == file[absolute - o..absolute + size];
  }
}
