/** service.py `_wait_stop_action`: how long one stop action is waited for.

    Times are reals: rounding is not the point here. */
module StopWait {
  import opened Wrappers

  type Bytes = seq<bv8>

  /** The fields of `StopAction` that the wait reads. */
  datatype Limits = Limits(timeout: real, maximum: Option<real>, extend: bool, needle: Option<Bytes>)

  /** What `StopAction` validates. */
  predicate Valid(l: Limits) {
    && l.timeout >= 0.0
    && (l.extend ==> l.maximum.Some?)
    && (l.maximum.Some? ==> l.maximum.value >= l.timeout)
    && (l.needle.Some? ==> l.needle.value != [])
  }

  /** What one pass of the loop observes: the clock at its guard, whether the task is over, whether
      the user asked to advance, the bytes read, and the clock after reading them. */
  datatype Moment = Moment(guard: real, over: bool, advance: bool, chunk: Bytes, read: real)

  datatype End = TimedOut | Over | Advanced | Seen | Watching

  /** The clock never goes back. */
  ghost predicate Clock(now: real, script: seq<Moment>) {
    && (forall i :: 0 <= i < |script| ==> now <= script[i].guard <= script[i].read)
    && (forall i, j :: 0 <= i < j < |script| ==> script[i].read <= script[j].guard)
  }

  function Max(a: real, b: real): real {
    if a >= b then a else b
  }

  function Min(a: real, b: real): real {
    if a <= b then a else b
  }

  function Hard(l: Limits, remaining: real, now: real): real {
    if l.maximum.Some?
    then now + Max(0.0, l.maximum.value - Max(0.0, l.timeout - remaining))
    else now + remaining
  }

  // ---------------------------------------------------------------- what the wait means

  /** The bytes read by the first `k` passes; nothing is read when nothing needs it. */
  function Output(script: seq<Moment>, k: nat): Bytes
    requires k <= |script|
  {
    if k == 0 then [] else Output(script, k - 1) + script[k - 1].chunk
  }

  function Cap(needle: Bytes): (n: nat)
    ensures n >= 1024 && n >= 2 * |needle| && (n == 1024 || n == 2 * |needle|)
  {
    if |needle| * 2 >= 1024 then |needle| * 2 else 1024
  }

  /** `b[-n:]` */
  function Last(b: Bytes, n: nat): Bytes {
    if |b| <= n then b else b[|b| - n..]
  }

  ghost predicate OccursAt(needle: Bytes, b: Bytes, p: nat) {
    p + |needle| <= |b| && b[p..p + |needle|] == needle
  }

  ghost predicate Contains(b: Bytes, needle: Bytes) {
    exists p: nat :: OccursAt(needle, b, p)
  }

  /** The deadline in force at pass `k`. */
  function Deadline(l: Limits, remaining: real, now: real, script: seq<Moment>, k: nat): real
    requires k <= |script|
  {
    if k == 0 then now + remaining
    else if l.extend && script[k - 1].chunk != []
    then Min(script[k - 1].read + l.timeout, Hard(l, remaining, now))
    else Deadline(l, remaining, now, script, k - 1)
  }

  /** What pass `k` decides, if the passes before it decided nothing. */
  ghost function Decision(l: Limits, remaining: real, now: real, script: seq<Moment>, k: nat): End
    requires k < |script|
  {
    if script[k].guard >= Min(Deadline(l, remaining, now, script, k), Hard(l, remaining, now)) then TimedOut
    else if script[k].over then Over
    else if script[k].advance then Advanced
    else if l.needle.Some? && Contains(Last(Output(script, k + 1), Cap(l.needle.value)), l.needle.value) then Seen
    else Watching
  }

  // ---------------------------------------------------------------- the loop

  lemma LastOfLast(before: Bytes, chunk: Bytes, n: nat)
    ensures Last(Last(before, n) + chunk, n) == Last(before + chunk, n)
  {
    if |before| > n {
      assert before + chunk == before[..|before| - n] + (before[|before| - n..] + chunk);
    }
  }

  method Find(b: Bytes, needle: Bytes) returns (found: bool)
    ensures found <==> Contains(b, needle)
  {
    var p := 0;
    while p + |needle| <= |b|
      invariant forall q: nat :: q < p ==> !OccursAt(needle, b, q)
    {
      if b[p..p + |needle|] == needle {
        assert OccursAt(needle, b, p);
        return true;
      }
      p := p + 1;
    }
    return false;
  }

  /** The first pass that decides ends the wait with its decision; `passes` counts the passes before it. */
  method WaitStopAction(l: Limits, remaining: real, now: real, script: seq<Moment>) returns (end: End, passes: nat)
    requires Valid(l)
    ensures passes <= |script|
    ensures forall k :: 0 <= k < passes ==> Decision(l, remaining, now, script, k) == Watching
    ensures if passes < |script| then end == Decision(l, remaining, now, script, passes) != Watching
        else end == Watching
  {
    hide Contains, Last;
    var deadline := now + remaining;
    var elapsedInApply := Max(0.0, l.timeout - remaining);
    var hardDeadline := if l.maximum.Some? then now + Max(0.0, l.maximum.value - elapsedInApply) else deadline;
    var needle := if l.needle.Some? then l.needle.value else [];
    var tail: Bytes := [];
    passes := 0;
    LastOfNothing(Cap(needle));
    while passes < |script|
      invariant passes <= |script|
      invariant hardDeadline == Hard(l, remaining, now) && deadline == Deadline(l, remaining, now, script, passes)
      invariant l.needle.Some? ==> tail == Last(Output(script, passes), Cap(needle))
      invariant l.needle.Some? && passes > 0 ==> !Contains(tail, needle)
      invariant forall k :: 0 <= k < passes ==> Decision(l, remaining, now, script, k) == Watching
    {
      var m := script[passes];
      if m.guard >= Min(deadline, hardDeadline) {
        return TimedOut, passes;
      }
      if m.over {
        return Over, passes;
      }
      if m.advance {
        return Advanced, passes;
      }
      if (l.needle.Some? || l.extend) && m.chunk != [] {
        if l.extend {
          deadline := Min(m.read + l.timeout, hardDeadline);
        }
        if l.needle.Some? {
          LastOfLast(Output(script, passes), m.chunk, Cap(needle));
          tail := Last(tail + m.chunk, Cap(needle));
          var found := Find(tail, needle);
          if found {
            return Seen, passes;
          }
        }
      } else if l.needle.Some? {
        assert Output(script, passes + 1) == Output(script, passes);
        if passes == 0 {
          NothingContains(needle, Cap(needle));
        }
      }
      passes := passes + 1;
    }
    return Watching, passes;
  }

  lemma LastOfNothing(n: nat)
    ensures Last([], n) == []
  {
  }

  lemma NothingContains(needle: Bytes, n: nat)
    requires needle != []
    ensures !Contains(Last([], n), needle)
  {
  }

  // ---------------------------------------------------------------- how long it can take

  /** `_apply_stop_action` */
  function Remaining(l: Limits, started: real, applied: real): real {
    Max(0.0, l.timeout - (applied - started))
  }

  /** What remains of the timeout never falls below zero. */
  lemma RemainingMeans(l: Limits, started: real, applied: real)
    ensures applied - started < l.timeout ==> Remaining(l, started, applied) == l.timeout - (applied - started)
    ensures applied - started >= l.timeout ==> Remaining(l, started, applied) == 0.0
  {
  }

  /** The latest moment that a wait may last to, for an action that started at `started`. */
  function Limit(l: Limits, started: real): real {
    started + if l.maximum.Some? then l.maximum.value else l.timeout
  }

  /** No pass goes on at or after the hard deadline, which counts from the start of the action:
      output can never stretch the wait past it, however the action itself took. */
  lemma NeverPastLimit(l: Limits, started: real, applied: real, now: real, script: seq<Moment>, k: nat)
    requires Valid(l) && started <= applied <= now && Clock(now, script) && k < |script|
    requires forall i :: 0 <= i <= k ==> Decision(l, Remaining(l, started, applied), now, script, i) != TimedOut
    ensures script[k].guard < Limit(l, started) + (now - applied)
  {
    var remaining := Remaining(l, started, applied);
    assert script[0].guard < Min(Deadline(l, remaining, now, script, 0), Hard(l, remaining, now)) by {
      assert Decision(l, remaining, now, script, 0) != TimedOut;
    }
    assert Decision(l, remaining, now, script, k) != TimedOut;
  }

  /** Once an action has outlasted its own timeout while being applied, it is not waited for at all. */
  lemma SpentActionIsNotWaitedFor(l: Limits, started: real, applied: real, now: real, script: seq<Moment>)
    requires Valid(l) && applied - started >= l.timeout && Clock(now, script) && script != []
    ensures Decision(l, Remaining(l, started, applied), now, script, 0) == TimedOut
  {
  }

  /** Until output extends the wait, it times out exactly when the remaining time has passed. */
  lemma {:induction false} TimesOutUnextended(l: Limits, remaining: real, now: real, script: seq<Moment>, k: nat)
    requires Valid(l) && 0.0 <= remaining <= l.timeout && k < |script|
    requires !l.extend || forall j :: 0 <= j < k ==> script[j].chunk == []
    ensures Decision(l, remaining, now, script, k) == TimedOut <==> script[k].guard - now >= remaining
  {
    FirstDeadline(l, remaining, now, script, k);
  }

  lemma {:induction false} FirstDeadline(l: Limits, remaining: real, now: real, script: seq<Moment>, k: nat)
    requires k <= |script| && (!l.extend || forall j :: 0 <= j < k ==> script[j].chunk == [])
    ensures Deadline(l, remaining, now, script, k) == now + remaining
  {
    if k > 0 {
      FirstDeadline(l, remaining, now, script, k - 1);
    }
  }

  /** Before the wait times out, the state of the task decides first, then the user, then the needle. */
  lemma DecidesInOrder(l: Limits, remaining: real, now: real, script: seq<Moment>, k: nat)
    requires Valid(l) && k < |script| && Decision(l, remaining, now, script, k) != TimedOut
    ensures var end, m := Decision(l, remaining, now, script, k), script[k];
            && (end == Over <==> m.over)
            && (end == Advanced <==> m.advance && !m.over)
            && (end == Seen ==> l.needle.Some? && Contains(Output(script, k + 1), l.needle.value))
  {
    if l.needle.Some? && Contains(Last(Output(script, k + 1), Cap(l.needle.value)), l.needle.value) {
      WindowSees(Output(script, k + 1), l.needle.value, Cap(l.needle.value));
    }
  }

  /** With extension, the wait times out at pass `k` exactly when the hard deadline has come or the
      output has been silent for a whole timeout. */
  lemma {:induction false} QuietWindow(l: Limits, remaining: real, now: real, script: seq<Moment>, i: nat, k: nat)
    requires l.extend && i < k < |script| && script[i].chunk != []
    requires forall j :: i < j < k ==> script[j].chunk == []
    ensures Decision(l, remaining, now, script, k) == TimedOut <==>
      script[k].guard >= Hard(l, remaining, now) || script[k].guard - script[i].read >= l.timeout
  {
    LastExtension(l, remaining, now, script, i, k);
  }

  lemma {:induction false} LastExtension(l: Limits, remaining: real, now: real, script: seq<Moment>, i: nat, k: nat)
    requires l.extend && i < k <= |script| && script[i].chunk != []
    requires forall j :: i < j < k ==> script[j].chunk == []
    ensures Deadline(l, remaining, now, script, k) == Min(script[i].read + l.timeout, Hard(l, remaining, now))
    decreases k
  {
    if k > i + 1 {
      LastExtension(l, remaining, now, script, i, k - 1);
    }
  }

  /** Passes that sleep for at least 50 milliseconds each number at most one for every 50
      milliseconds up to the hard deadline. */
  lemma PassesAreBounded(l: Limits, remaining: real, now: real, script: seq<Moment>, passes: nat)
    requires Clock(now, script) && passes <= |script|
    requires forall i :: 0 < i < |script| ==> script[i].guard >= script[i - 1].guard + 0.05
    requires forall k :: 0 <= k < passes ==> Decision(l, remaining, now, script, k) == Watching
    ensures passes > 0 ==> (passes - 1) as real * 0.05 < Hard(l, remaining, now) - now
  {
    if passes > 0 {
      GuardsAdvance(script, passes - 1);
      assert Decision(l, remaining, now, script, passes - 1) == Watching;
      assert now <= script[0].guard;
    }
  }

  lemma {:induction false} GuardsAdvance(script: seq<Moment>, k: nat)
    requires k < |script|
    requires forall i :: 0 < i < |script| ==> script[i].guard >= script[i - 1].guard + 0.05
    ensures script[k].guard >= script[0].guard + k as real * 0.05
  {
    if k > 0 {
      GuardsAdvance(script, k - 1);
    }
  }

  // ---------------------------------------------------------------- what the wait sees

  /** The needle is in the kept window exactly when it occurs within the last `n` bytes. */
  lemma WindowSees(b: Bytes, needle: Bytes, n: nat)
    ensures Contains(Last(b, n), needle) <==> exists p: nat :: OccursAt(needle, b, p) && |b| - p <= n
  {
    var w := Last(b, n);
    var shift := |b| - |w|;
    assert w == b[shift..];
    if Contains(w, needle) {
      var p: nat :| OccursAt(needle, w, p);
      assert b[shift..][p..p + |needle|] == b[shift + p..shift + p + |needle|];
      assert OccursAt(needle, b, shift + p);
    }
    if exists p: nat :: OccursAt(needle, b, p) && |b| - p <= n {
      var p: nat :| OccursAt(needle, b, p) && |b| - p <= n;
      assert p >= shift;
      assert b[shift..][p - shift..p - shift + |needle|] == b[p..p + |needle|];
      assert OccursAt(needle, w, p - shift);
    }
  }

  lemma OccursEarlier(before: Bytes, chunk: Bytes, needle: Bytes, p: nat)
    requires OccursAt(needle, before + chunk, p)
    ensures OccursAt(needle, before, p) || p + |needle| > |before|
  {
    if p + |needle| <= |before| {
      assert (before + chunk)[p..p + |needle|] == before[p..p + |needle|];
    }
  }

  /** Where no single read is longer than the window less the needle, a needle in the output is seen
      by the pass that completes it: an output that stays unseen holds no needle. */
  lemma {:induction false} SmallReadsMissNothing(l: Limits, remaining: real, now: real, script: seq<Moment>, k: nat)
    requires Valid(l) && l.needle.Some? && k <= |script|
    requires forall i :: 0 <= i < k ==> |script[i].chunk| + |l.needle.value| <= Cap(l.needle.value) + 1
    requires forall i :: 0 <= i < k ==> Decision(l, remaining, now, script, i) == Watching
    ensures !Contains(Output(script, k), l.needle.value)
    decreases k
  {
    var needle, out := l.needle.value, Output(script, k);
    if k > 0 {
      SmallReadsMissNothing(l, remaining, now, script, k - 1);
      var before := Output(script, k - 1);
      assert Decision(l, remaining, now, script, k - 1) == Watching;
      WindowSees(out, needle, Cap(needle));
      forall p: nat | OccursAt(needle, out, p) ensures false {
        OccursEarlier(before, script[k - 1].chunk, needle, p);
      }
    }
  }

  /** A wait for `needle` that has gone on watching for `k` passes, none of which read more than `n` bytes. */
  ghost predicate StillWatching(needle: Bytes, n: nat, l: Limits, remaining: real, now: real,
      script: seq<Moment>, k: nat)
  {
    && Valid(l) && l.needle == Some(needle) && Clock(now, script) && k <= |script|
    && forall i :: 0 <= i < k ==> |script[i].chunk| <= n && Decision(l, remaining, now, script, i) == Watching
  }

  /** With reads of at most `n` bytes, whatever is printed and however it is split into reads, no wait
      goes on when the needle has been printed. */
  ghost predicate NeverMissed(needle: Bytes, n: nat) {
    forall l, remaining, now, script, k: nat ::
      StillWatching(needle, n, l, remaining, now, script, k) ==> !Contains(Output(script, k), needle)
  }

  /** `output_contains` is never missed exactly when a read and the needle, less the one byte that
      they must share, fit in the kept window. */
  lemma NeverMissedExactlyWhen(needle: Bytes, n: nat)
    requires needle != []
    ensures NeverMissed(needle, n) <==> n + |needle| <= Cap(needle) + 1
  {
    if n + |needle| <= Cap(needle) + 1 {
      forall l, remaining, now, script, k: nat | StillWatching(needle, n, l, remaining, now, script, k)
        ensures !Contains(Output(script, k), needle)
      {
        SmallReadsMissNothing(l, remaining, now, script, k);
      }
    } else {
      var script := Hiding(needle, n);
      HidingIsWatched(needle, n);
      assert StillWatching(needle, n, Limits(10.0, None, false, Some(needle)), 10.0, 0.0, script, 2);
    }
  }

  /** Some byte other than `b`. */
  function Other(b: bv8): bv8 {
    if b == 0 then 1 else 0
  }

  function Filler(needle: Bytes, n: nat): Bytes
    requires needle != []
  {
    seq(n, i => Other(needle[|needle| - 1]))
  }

  /** All of the needle but its last byte, then one read that begins with that byte and pushes the
      needle out of the window. */
  function Hiding(needle: Bytes, n: nat): seq<Moment>
    requires needle != [] && n > 0
  {
    [Moment(0.0, false, false, needle[..|needle| - 1], 0.0),
     Moment(0.0, false, false, needle[|needle| - 1..] + Filler(needle, n - 1), 0.0)]
  }

  lemma HidingIsWatched(needle: Bytes, n: nat)
    requires needle != [] && n + |needle| > Cap(needle) + 1
    ensures Contains(Output(Hiding(needle, n), 2), needle)
    ensures StillWatching(needle, n, Limits(10.0, None, false, Some(needle)), 10.0, 0.0, Hiding(needle, n), 2)
  {
    hide Contains, Cap, Last, Filler;
    WindowAtLeast(needle);
    var l, script := Limits(10.0, None, false, Some(needle)), Hiding(needle, n);
    var before := needle[..|needle| - 1];
    assert Output(script, 1) == [] + before == before;
    assert Output(script, 2) == before + script[1].chunk;
    TooShort(before, needle);
    Hidden(needle, n);
    assert Decision(l, 10.0, 0.0, script, 0) == Watching;
    assert Decision(l, 10.0, 0.0, script, 1) == Watching;
  }

  lemma WindowAtLeast(needle: Bytes)
    ensures Cap(needle) >= 2 * |needle|
  {
  }

  lemma TooShort(b: Bytes, needle: Bytes)
    requires |b| < |needle|
    ensures !Contains(Last(b, Cap(needle)), needle)
  {
  }

  lemma OccurrenceEnds(needle: Bytes, b: Bytes, p: nat)
    requires OccursAt(needle, b, p) && needle != []
    ensures b[p + |needle| - 1] == needle[|needle| - 1]
  {
    assert b[p..p + |needle|][|needle| - 1] == b[p + |needle| - 1];
  }

  lemma Hidden(needle: Bytes, n: nat)
    requires needle != [] && n + |needle| > Cap(needle) + 1
    ensures var out := needle[..|needle| - 1] + (needle[|needle| - 1..] + Filler(needle, n - 1));
            |Filler(needle, n - 1)| == n - 1 && Contains(out, needle) && !Contains(Last(out, Cap(needle)), needle)
  {
    var m := |needle|;
    var out := needle[..m - 1] + (needle[m - 1..] + Filler(needle, n - 1));
    assert out[0..m] == needle;
    assert OccursAt(needle, out, 0);
    WindowSees(out, needle, Cap(needle));
    forall p: nat | OccursAt(needle, out, p) ensures p == 0 {
      OccurrenceEnds(needle, out, p);
    }
  }
}
