/** process_owner.py `own`: its system calls one after the other, and what it sends. */
module OwnerLog {
  import opened Wrappers
  import opened ProcessFamily

  const SIGKILL := 9

  /** What happens before the owner's next system call returns: events of the kernel, a signal to
      the owner, a control message, or a failure of the owner's own bookkeeping. */
  datatype Moment = Moment(events: seq<Event>, signal: Option<int>, message: Option<int>, fails: bool)

  /** `_signal_family` sent `signal` to these processes. */
  datatype Sent = Sent(signal: int, to: set<Pid>)

  // ---------------------------------------------------------------- what an owner has done

  /** What a system call of the owner came to: a child reaped, children of which none has exited, no child
      at all; a round in which a request is passed on, 0 if there is none; or a failure. */
  datatype Use = Took(pid: Pid, status: int) | Nothing | Nobody | Control(request: int) | Fails

  /** One system call: what happened before it, the kernel it found, and what it came to. */
  datatype Entry = Entry(moment: Moment, kernel: Kernel, use: Use)

  type Log = seq<Entry>

  function Init(log: Log): Log
    requires log != []
  {
    log[..|log| - 1]
  }

  function LastOf(log: Log): Entry
    requires log != []
  {
    log[|log| - 1]
  }

  function Remaining(k: Kernel, use: Use): Kernel {
    if use.Took? then k.(family := k.family - {use.pid}) else k
  }

  /** The kernel behind the last call. */
  function KernelAfter(k0: Kernel, log: Log): Kernel {
    if log == [] then k0 else Remaining(LastOf(log).kernel, LastOf(log).use)
  }

  /** The owner has failed, and only kills and reaps. */
  predicate IsDraining(log: Log) {
    log != [] && (LastOf(log).use == Fails || IsDraining(Init(log)))
  }

  /** The next call waits for a control message: nothing was left to reap. */
  predicate IsControlTurn(log: Log) {
    log != [] && LastOf(log).use == Nothing && !IsDraining(log)
  }

  /** The last signal since the last round, or 0. */
  function Pending(log: Log): int {
    if log == [] || LastOf(log).use.Control? then 0
    else if LastOf(log).moment.signal.Some? then LastOf(log).moment.signal.value
    else Pending(Init(log))
  }

  function Signalled(log: Log, m: Moment): int {
    if m.signal.Some? then m.signal.value else Pending(log)
  }

  /** What a round before which `m` happens passes on: a message goes before a signal. */
  function RequestAt(log: Log, m: Moment): int {
    if m.message.Some? then m.message.value else Signalled(log, m)
  }

  /** A round has passed SIGKILL on. */
  predicate IsForced(log: Log) {
    log != [] && (LastOf(log).use == Control(SIGKILL) || IsForced(Init(log)))
  }

  /** What the owner sends after its last call, whatever it sent before. */
  function SentLast(log: Log): seq<Sent>
    requires log != []
  {
    var family := LastOf(log).kernel.family.Keys;
    match LastOf(log).use
    case Control(request) =>
      (if request != 0 then [Sent(request, family)] else []) + (if IsForced(log) then [Sent(SIGKILL, family)] else [])
    case Fails => [Sent(SIGKILL, family)]
    case Nothing => if IsDraining(log) then [Sent(SIGKILL, family)] else []
    case _ => []
  }

  function SentBy(log: Log): seq<Sent> {
    if log == [] then [] else SentBy(Init(log)) + SentLast(log)
  }

  /** The status with which the leader was reaped, unless the owner was draining by then. */
  function StatusOf(s: Setting, log: Log): Option<int> {
    if log == [] then None
    else if LastOf(log).use.Took? && LastOf(log).use.pid == s.leader && !IsDraining(log)
    then Some(LastOf(log).use.status)
    else StatusOf(s, Init(log))
  }

  /** What `os.waitpid(-1, os.WNOHANG)` can come to. */
  ghost predicate IsReaping(s: Setting, k: Kernel, use: Use) {
    match use
    case Took(pid, status) => IsOwnChild(s, k, pid) && k.family[pid].zombie == Some(status)
    case Nothing =>
      && (exists p :: IsOwnChild(s, k, p))
      && (forall p :: IsOwnChild(s, k, p) ==> k.family[p].zombie.None?)
    case Nobody => forall p :: !IsOwnChild(s, k, p)
    case _ => false
  }

  /** The entry may come next. */
  ghost predicate IsNext(s: Setting, k0: Kernel, log: Log, e: Entry) {
    && e.kernel == AfterAll(s, KernelAfter(k0, log), e.moment.events)
    && (log != [] ==> LastOf(log).use != Nobody)
    && if IsControlTurn(log)
       then e.use == if e.moment.fails then Fails else Control(RequestAt(log, e.moment))
       else IsReaping(s, e.kernel, e.use)
  }

  /** Everything in the log happened as it must. */
  ghost predicate IsLog(s: Setting, k0: Kernel, log: Log) {
    log == [] || (IsLog(s, k0, Init(log)) && IsNext(s, k0, Init(log), LastOf(log)))
  }

  /** The calls are those at the first of the moments. */
  ghost predicate Follows(log: Log, moments: seq<Moment>) {
    |log| <= |moments| && forall i :: 0 <= i < |log| ==> log[i].moment == moments[i]
  }

  /** The next call can reap. */
  predicate CanReap(log: Log) {
    (log != [] ==> LastOf(log).use != Nobody) && !IsControlTurn(log)
  }

  lemma LogSnoc(log: Log, e: Entry)
    ensures Init(log + [e]) == log && LastOf(log + [e]) == e
  {
  }

  /** Once the leader has been reaped in time, its status is known. */
  lemma {:induction false} LeaderIsKnown(s: Setting, k0: Kernel, log: Log)
    requires KernelOk(s, k0) && s.leader in k0.family && IsLog(s, k0, log)
    ensures KernelOk(s, KernelAfter(k0, log))
    ensures !IsDraining(log) && s.leader !in KernelAfter(k0, log).family ==>
              StatusOf(s, log) == KernelAfter(k0, log).leaderStatus
    decreases |log|
  {
    hide KernelOk, AfterAll, IsReaping;
    if log != [] {
      var before, e := Init(log), LastOf(log);
      LeaderIsKnown(s, k0, before);
      EventsKeep(s, KernelAfter(k0, before), e.moment.events);
      if e.use.Took? {
        TakenKeeps(s, e.kernel, e.use);
      }
      StatusStays(s, KernelAfter(k0, before), e.moment.events);
    }
  }

  lemma TakenKeeps(s: Setting, k: Kernel, use: Use)
    requires KernelOk(s, k) && use.Took? && IsReaping(s, k, use)
    ensures KernelOk(s, Remaining(k, use)) && (use.pid == s.leader ==> Some(use.status) == k.leaderStatus)
  {
  }

  /** A leader that is gone leaves its status behind. */
  lemma StatusStays(s: Setting, k: Kernel, events: seq<Event>)
    requires KernelOk(s, k)
    ensures s.leader !in k.family ==> AfterAll(s, k, events).leaderStatus == k.leaderStatus
  {
    EventsKeep(s, k, events);
  }

  /** One more call, and what everything comes to with it. */
  lemma Appended(s: Setting, k0: Kernel, log: Log, e: Entry)
    ensures IsLog(s, k0, log) && IsNext(s, k0, log, e) ==> IsLog(s, k0, log + [e])
    ensures SentBy(log + [e]) == SentBy(log) + SentLast(log + [e])
    ensures LastOf(log + [e]) == e && KernelAfter(k0, log + [e]) == Remaining(e.kernel, e.use)
    ensures IsDraining(log + [e]) == (e.use == Fails || IsDraining(log))
    ensures IsForced(log + [e]) == (e.use == Control(SIGKILL) || IsForced(log))
    ensures Pending(log + [e]) == if e.use.Control? then 0 else Signalled(log, e.moment)
    ensures StatusOf(s, log + [e]) ==
              if e.use.Took? && e.use.pid == s.leader && !IsDraining(log) then Some(e.use.status) else StatusOf(s, log)
  {
    hide IsNext;
    LogSnoc(log, e);
  }

  /** While the owner drains, nothing is recorded, and every pass begins with a kill. */
  lemma Drained(s: Setting, log: Log, e: Entry)
    requires e.use == Fails || (IsDraining(log) && !e.use.Control?)
    ensures StatusOf(s, log + [e]) == StatusOf(s, log)
    ensures SentLast(log + [e]) == if e.use in {Fails, Nothing} then [Sent(SIGKILL, e.kernel.family.Keys)] else []
  {
    LogSnoc(log, e);
  }

  lemma Quiet(log: Log, e: Entry)
    requires !IsDraining(log) && !e.use.Control? && e.use != Fails
    ensures SentLast(log + [e]) == []
  {
    LogSnoc(log, e);
  }

  /** The log can happen, and `force`, `sent` and `status` are what it says. */
  ghost predicate Accounts(s: Setting, k0: Kernel, log: Log, force: bool, sent: seq<Sent>, status: Option<int>) {
    && KernelOk(s, k0) && s.leader in k0.family && IsLog(s, k0, log)
    && force == IsForced(log) && sent == SentBy(log) && status == StatusOf(s, log)
  }

  lemma Recorded(s: Setting, k0: Kernel, log: Log, e: Entry, force0: bool, sent0: seq<Sent>, status0: Option<int>,
      force: bool, sent: seq<Sent>, status: Option<int>)
    requires Accounts(s, k0, log, force0, sent0, status0) && IsNext(s, k0, log, e)
    requires force == (e.use == Control(SIGKILL) || force0)
    requires sent == sent0 + SentLast(log + [e])
    requires status == if e.use.Took? && e.use.pid == s.leader && !IsDraining(log) then Some(e.use.status) else status0
    ensures Accounts(s, k0, log + [e], force, sent, status)
  {
    hide IsNext, KernelOk, IsLog, IsForced, SentBy, StatusOf, IsDraining, SentLast;
    Appended(s, k0, log, e);
  }

  lemma AccountsKernel(s: Setting, k0: Kernel, log: Log, force: bool, sent: seq<Sent>, status: Option<int>)
    requires Accounts(s, k0, log, force, sent, status)
    ensures KernelOk(s, KernelAfter(k0, log))
  {
    hide IsDraining, StatusOf, SentBy;
    LeaderIsKnown(s, k0, log);
  }

  lemma AccountsNobody(s: Setting, k0: Kernel, log: Log, force: bool, sent: seq<Sent>, status: Option<int>)
    requires Accounts(s, k0, log, force, sent, status) && log != [] && LastOf(log).use == Nobody
    ensures KernelAfter(k0, log).family == map[]
    ensures !IsDraining(log) ==> status == KernelAfter(k0, log).leaderStatus && status.Some?
  {
    hide IsDraining, StatusOf, SentBy;
    NobodyIsLeft(s, k0, log);
  }

  lemma ReapedNext(s: Setting, k0: Kernel, log: Log, e: Entry)
    requires e.kernel == AfterAll(s, KernelAfter(k0, log), e.moment.events) && IsReaping(s, e.kernel, e.use)
    requires CanReap(log)
    ensures IsNext(s, k0, log, e) && !e.use.Control? && e.use != Fails
  {
    hide AfterAll;
  }

  lemma ControlNext(s: Setting, k0: Kernel, log: Log, e: Entry)
    requires e.kernel == AfterAll(s, KernelAfter(k0, log), e.moment.events) && IsControlTurn(log)
    requires e.use == if e.moment.fails then Fails else Control(RequestAt(log, e.moment))
    ensures IsNext(s, k0, log, e)
  {
  }

  lemma Controlled(log: Log, e: Entry)
    requires e.use.Control?
    ensures SentLast(log + [e]) ==
              (if e.use.request != 0 then [Sent(e.use.request, e.kernel.family.Keys)] else [])
              + (if e.use.request == SIGKILL || IsForced(log) then [Sent(SIGKILL, e.kernel.family.Keys)] else [])
  {
    LogSnoc(log, e);
  }

  lemma AccountsForce(s: Setting, k0: Kernel, log: Log, force: bool, sent: seq<Sent>, status: Option<int>)
    requires Accounts(s, k0, log, force, sent, status)
    ensures force == IsForced(log)
  {
  }

  lemma Discarded(s: Setting, k0: Kernel, log: Log, e: Entry, force: bool, sent: seq<Sent>, status: Option<int>)
    requires Accounts(s, k0, log, force, sent, status) && IsNext(s, k0, log, e) && IsDraining(log)
    requires e.use.Took? || e.use == Nobody
    ensures Accounts(s, k0, log + [e], force, sent, status)
    ensures e.use == Nobody ==> e.kernel.family == map[]
    ensures KernelAfter(k0, log + [e]) == Remaining(e.kernel, e.use) && IsDraining(log + [e])
    ensures Pending(log + [e]) == Signalled(log, e.moment)
  {
    hide KernelOk, AfterAll, Accounts, IsReaping, Pending, IsDraining, IsForced, KernelAfter, SentLast, IsNext;
    Appended(s, k0, log, e);
    Drained(s, log, e);
    Recorded(s, k0, log, e, force, sent, status, force, sent, status);
    if e.use == Nobody {
      AccountsNobody(s, k0, log + [e], force, sent, status);
    }
  }

  lemma TakenOk(s: Setting, k: Kernel, use: Use)
    requires KernelOk(s, k) && IsReaping(s, k, use)
    ensures KernelOk(s, Remaining(k, use)) && !use.Control? && use != Fails
  {
    if use.Took? {
      TakenKeeps(s, k, use);
    }
  }

  /** The last call that finds nobody finds an empty family. */
  lemma NobodyIsLeft(s: Setting, k0: Kernel, log: Log)
    requires KernelOk(s, k0) && s.leader in k0.family && IsLog(s, k0, log) && log != [] && LastOf(log).use == Nobody
    ensures KernelAfter(k0, log).family == map[]
    ensures !IsDraining(log) ==> StatusOf(s, log) == KernelAfter(k0, log).leaderStatus
                                 && KernelAfter(k0, log).leaderStatus.Some?
  {
    hide AfterAll, IsLog, StatusOf, IsDraining;
    LeaderIsKnown(s, k0, log);
    assert IsReaping(s, LastOf(log).kernel, Nobody) by { LastIsNext(s, k0, log); }
    NobodyLeft(s, KernelAfter(k0, log));
  }

  lemma LastIsNext(s: Setting, k0: Kernel, log: Log)
    requires IsLog(s, k0, log) && log != [] && LastOf(log).use == Nobody
    ensures IsReaping(s, LastOf(log).kernel, Nobody)
  {
    hide AfterAll;
  }

  // ---------------------------------------------------------------- what a log promises

  lemma {:induction false} LogPrefix(s: Setting, k0: Kernel, log: Log, n: nat)
    requires IsLog(s, k0, log) && n <= |log|
    ensures IsLog(s, k0, log[..n]) && SentBy(log[..n]) <= SentBy(log)
    decreases |log|
  {
    hide IsNext, SentLast;
    if n == |log| {
      assert log[..n] == log;
    } else {
      LogPrefix(s, k0, Init(log), n);
      assert Init(log)[..n] == log[..n];
    }
  }

  /** `v` is what was asked last before the call `i` since the round before it: by its message, or else by
      a signal. */
  ghost predicate IsAsked(log: Log, i: nat, v: int)
    requires i < |log|
  {
    if log[i].moment.message.Some? then log[i].moment.message.value == v
    else exists j :: 0 <= j <= i && log[j].moment.signal == Some(v)
           && (forall n :: j < n <= i ==> log[n].moment.signal.None?)
           && (forall n :: j <= n < i ==> !log[n].use.Control?)
  }

  ghost predicate NothingAsked(log: Log, i: nat)
    requires i < |log|
  {
    && log[i].moment.message.None?
    && forall j :: 0 <= j <= i && log[j].moment.signal.Some? ==> exists n :: j <= n < i && log[n].use.Control?
  }

  lemma {:induction false} SignalWaits(log: Log, j: nat, v: int)
    requires j < |log| && log[j].moment.signal == Some(v)
    requires forall n :: j < n < |log| ==> log[n].moment.signal.None?
    requires forall n :: j <= n < |log| ==> !log[n].use.Control?
    ensures Pending(log) == v
    decreases |log|
  {
    if j + 1 < |log| {
      SignalWaits(Init(log), j, v);
    }
  }

  lemma {:induction false} NoSignalWaits(log: Log)
    requires forall j :: 0 <= j < |log| && log[j].moment.signal.Some? ==>
               exists n :: j <= n < |log| && log[n].use.Control?
    ensures Pending(log) == 0
    decreases |log|
  {
    if log != [] && !LastOf(log).use.Control? {
      var before := Init(log);
      assert LastOf(log).moment.signal.None?;
      forall j | 0 <= j < |before| && before[j].moment.signal.Some?
        ensures exists n :: j <= n < |before| && before[n].use.Control?
      {
        var n :| j <= n < |log| && log[n].use.Control?;
        assert before[n] == log[n];
      }
      NoSignalWaits(before);
    }
  }

  /** A round takes up what was asked last, whether by a signal or by a message, and nothing else. */
  lemma RoundTakesRequest(s: Setting, k0: Kernel, log: Log, i: nat, v: int)
    requires IsLog(s, k0, log) && i < |log| && log[i].use.Control?
    ensures IsAsked(log, i, v) ==> log[i].use.request == v
    ensures NothingAsked(log, i) ==> log[i].use.request == 0
  {
    hide AfterAll, KernelAfter;
    var before, upTo := log[..i], log[..i + 1];
    LogPrefix(s, k0, log, i + 1);
    assert Init(upTo) == before && LastOf(upTo) == log[i];
    if log[i].moment.message.None? {
      if IsAsked(log, i, v) {
        var j :| 0 <= j <= i && log[j].moment.signal == Some(v)
          && (forall n :: j < n <= i ==> log[n].moment.signal.None?)
          && (forall n :: j <= n < i ==> !log[n].use.Control?);
        if j < i {
          SignalWaits(before, j, v);
        }
      }
      if NothingAsked(log, i) {
        assert log[i].moment.signal.None?;
        forall j | 0 <= j < |before| && before[j].moment.signal.Some?
          ensures exists n :: j <= n < |before| && before[n].use.Control?
        {
          var n :| j <= n < i && log[n].use.Control?;
          assert before[n] == log[n];
        }
        NoSignalWaits(before);
      }
    }
  }

  /** What the call `i` makes the owner send. */
  function SentAt(log: Log, i: nat): seq<Sent>
    requires i < |log|
  {
    var before, upTo := SentBy(log[..i]), SentBy(log[..i + 1]);
    if |before| <= |upTo| then upTo[|before|..] else []
  }

  lemma SentAtIs(log: Log, i: nat)
    requires i < |log|
    ensures SentBy(log[..i + 1]) == SentBy(log[..i]) + SentAt(log, i) && SentAt(log, i) == SentLast(log[..i + 1])
  {
    hide SentLast;
    assert Init(log[..i + 1]) == log[..i];
  }

  lemma {:induction false} ForcedSince(log: Log, k: nat)
    requires k < |log| && log[k].use == Control(SIGKILL)
    ensures IsForced(log)
    decreases |log|
  {
    if k + 1 < |log| {
      ForcedSince(Init(log), k);
    }
  }

  lemma {:induction false} ForcedOnce(log: Log) returns (k: nat)
    requires IsForced(log)
    ensures k < |log| && log[k].use == Control(SIGKILL)
    decreases |log|
  {
    if LastOf(log).use == Control(SIGKILL) {
      k := |log| - 1;
    } else {
      k := ForcedOnce(Init(log));
    }
  }

  /** A round sends what it was asked for to the whole family of that moment, and from the first SIGKILL on
      every round sends SIGKILL to the whole family of its moment. */
  lemma RoundSends(log: Log, i: nat)
    requires i < |log| && log[i].use.Control?
    ensures var request, family := log[i].use.request, log[i].kernel.family.Keys;
            var forced := exists k :: 0 <= k <= i && log[k].use == Control(SIGKILL);
            SentAt(log, i) == if request != 0 && forced then [Sent(request, family), Sent(SIGKILL, family)]
                              else if request != 0 then [Sent(request, family)]
                              else if forced then [Sent(SIGKILL, family)]
                              else []
  {
    hide SentBy;
    SentAtIs(log, i);
    var upTo := log[..i + 1];
    assert LastOf(upTo) == log[i];
    forall k | 0 <= k <= i && log[k].use == Control(SIGKILL) ensures IsForced(upTo) {
      assert upTo[k] == log[k];
      ForcedSince(upTo, k);
    }
    if IsForced(upTo) {
      var k := ForcedOnce(upTo);
      assert log[k] == upTo[k];
    }
  }

  lemma {:induction false} DrainingSince(log: Log)
    ensures IsDraining(log) <==> exists k :: 0 <= k < |log| && log[k].use == Fails
    decreases |log|
  {
    if log != [] {
      DrainingSince(Init(log));
      if IsDraining(Init(log)) {
        var k :| 0 <= k < |Init(log)| && Init(log)[k].use == Fails;
        assert log[k].use == Fails;
      }
      if exists k :: 0 <= k < |log| && log[k].use == Fails {
        var k :| 0 <= k < |log| && log[k].use == Fails;
        assert k < |log| - 1 ==> Init(log)[k].use == Fails;
      }
    }
  }

  /** Outside of rounds nothing is sent, except that from a failure on SIGKILL goes to the whole family at
      once and again whenever nothing is left to reap. */
  lemma OtherCallsSend(log: Log, i: nat)
    requires i < |log| && !log[i].use.Control?
    ensures var failed := exists k :: 0 <= k <= i && log[k].use == Fails;
            SentAt(log, i) == if failed && log[i].use in {Fails, Nothing}
                              then [Sent(SIGKILL, log[i].kernel.family.Keys)] else []
  {
    hide SentBy;
    SentAtIs(log, i);
    var upTo := log[..i + 1];
    assert LastOf(upTo) == log[i];
    DrainingSince(upTo);
    forall k | 0 <= k <= i ensures upTo[k] == log[k] {
    }
    if log[i].use == Fails {
      assert upTo[i].use == Fails;
    }
  }

  /** A round, or a failure instead of one, follows every reaping that leaves children of which none has
      exited, and only that. */
  lemma RoundsFollowReaping(s: Setting, k0: Kernel, log: Log, i: nat)
    requires IsLog(s, k0, log) && i + 1 < |log| && forall k :: 0 <= k <= i ==> log[k].use != Fails
    ensures log[i + 1].use.Control? || log[i + 1].use == Fails <==> log[i].use == Nothing
    ensures log[i].use == Nothing ==> (log[i + 1].use == Fails <==> log[i + 1].moment.fails)
  {
    hide AfterAll, KernelAfter;
    LogPrefix(s, k0, log, i + 2);
    var upTo, before := log[..i + 2], log[..i + 1];
    assert Init(upTo) == before && LastOf(upTo) == log[i + 1] && LastOf(before) == log[i];
    DrainingSince(before);
  }
}
