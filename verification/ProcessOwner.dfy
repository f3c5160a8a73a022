/** process_owner.py: the subreaper that returns only when its process family is gone. */
module ProcessOwner {
  import opened Wrappers
  import opened ProcessFamily
  import opened OwnerLog

  datatype Outcome = StillOwning | Returns(code: int) | DiesBy(signal: int) | Raises

  class Owner {
    const setting: Setting
    var kernel: Kernel
    var status: Option<int>
    var requested: int
    var force: bool
    var sent: seq<Sent>
    ghost const start: Kernel
    ghost var log: Log

    /** The fields say what the log says. */
    ghost predicate Agrees()
      reads this
    {
      Accounts(setting, start, log, force, sent, status)
    }

    ghost predicate Valid()
      reads this
    {
      Agrees() && kernel == KernelAfter(start, log) && requested == Pending(log)
    }

    /** `m` has happened, and the system call behind it returns. */
    ghost predicate Called(m: Moment)
      reads this
    {
      && Agrees() && KernelOk(setting, kernel)
      && kernel == AfterAll(setting, KernelAfter(start, log), m.events) && requested == Signalled(log, m)
    }

    /** `e` has happened, and is not yet in the log. */
    ghost predicate IsDue(e: Entry)
      reads this
    {
      && Agrees() && KernelOk(setting, kernel) && IsNext(setting, start, log, e)
      && kernel == Remaining(e.kernel, e.use) && requested == Signalled(log, e.moment)
    }

    /** Right after the leader has been started as the owner's only child. */
    constructor (owner: Pid, leader: Pid)
      requires owner != leader
      ensures Valid() && setting == Setting(owner, leader) && kernel.leaderStatus.None?
      ensures kernel.family.Keys == {leader} && log == [] && sent == []
    {
      setting := Setting(owner, leader);
      kernel := Kernel(map[leader := Process(owner, 0, None)], {owner, leader}, 1, None);
      start := Kernel(map[leader := Process(owner, 0, None)], {owner, leader}, 1, None);
      status, requested, force, sent, log := None, 0, false, [], [];
    }

    /** Time passes. */
    method Interfere(m: Moment)
      requires Valid()
      modifies `kernel, `requested
      ensures Called(m)
    {
      hide KernelOk, AfterAll, Accounts;
      AccountsKernel(setting, start, log, force, sent, status);
      EventsKeep(setting, kernel, m.events);
      kernel := AfterAll(setting, kernel, m.events);
      if m.signal.Some? {
        requested := m.signal.value;
      }
    }

    /** `os.waitpid(-1, os.WNOHANG)`: no child at all, no exited child, or one reaped child. */
    method WaitPid() returns (use: Use)
      modifies `kernel
      ensures IsReaping(setting, old(kernel), use) && kernel == Remaining(old(kernel), use)
      ensures use.Took? ==> use.pid in old(kernel).family && kernel.family == old(kernel).family - {use.pid}
      ensures !use.Took? ==> kernel == old(kernel)
    {
      var children := set p | p in kernel.family && kernel.family[p].parent == setting.owner;
      assert forall p :: IsOwnChild(setting, kernel, p) <==> p in children;
      if children == {} {
        return Nobody;
      }
      var exited := set p | p in children && kernel.family[p].zombie.Some?;
      if exited == {} {
        assert forall p :: p in children ==> p !in exited;
        return Nothing;
      }
      var p :| p in exited;
      use := Took(p, kernel.family[p].zombie.value);
      kernel := kernel.(family := kernel.family - {p});
    }

    /** `_signal_family` reaches every member of the family. */
    method SignalFamily(signal: int)
      requires KernelOk(setting, kernel)
      modifies `sent
      ensures sent == old(sent) + [Sent(signal, kernel.family.Keys)]
    {
      var to := Descendants(TableOf(setting, kernel), setting.owner);
      forall p ensures p in to <==> p in kernel.family {
        FamilyIsDescendants(setting, kernel, p);
      }
      assert to == kernel.family.Keys;
      sent := sent + [Sent(signal, to)];
    }

    /** One turn of reaping: what `m` leaves to reap, and the leader's status if it is the leader. */
    method Take(m: Moment) returns (use: Use)
      requires Valid() && CanReap(log) && !IsDraining(log)
      modifies this
      ensures Valid() && !IsDraining(log) && |log| == old(|log|) + 1 && old(log) <= log
      ensures LastOf(log).moment == m && LastOf(log).use == use && !use.Control? && use != Fails
    {
      hide KernelOk, AfterAll, Accounts, IsReaping, Pending, IsDraining, IsForced, KernelAfter, SentLast, IsNext;
      Interfere(m);
      ghost var found, before := kernel, status;
      use := WaitPid();
      if use.Took? && use.pid == setting.leader {
        status := Some(use.status);
      }
      ghost var e := Entry(m, found, use);
      ReapedNext(setting, start, log, e);
      Quiet(log, e);
      Appended(setting, start, log, e);
      Recorded(setting, start, log, e, force, sent, before, force, sent, status);
      log := log + [e];
    }

    /** The inner loop of `own`: reap what has exited, until nothing has or nobody is left. */
    method Reap(moments: seq<Moment>, next0: nat) returns (drained: bool, next: nat)
      requires Valid() && CanReap(log) && !IsDraining(log) && Follows(log, moments) && next0 == |log|
      modifies this
      ensures Valid() && !IsDraining(log) && Follows(log, moments) && next == |log| >= next0
      ensures drained <==> log != [] && LastOf(log).use == Nobody
      ensures !drained ==> IsControlTurn(log) || (next == |moments| && CanReap(log))
    {
      hide Valid, IsDraining;
      next, drained := next0, false;
      while next < |moments|
        invariant Valid() && CanReap(log) && !IsDraining(log) && Follows(log, moments) && next0 <= next == |log|
        decreases |moments| - next
      {
        var use := Take(moments[next]);
        next := next + 1;
        if !use.Took? {
          return use.Nobody?, next;
        }
      }
    }

    /** One round: pass on what `m` brings, unless it makes the owner fail. */
    method Round(m: Moment)
      requires Called(m) && IsControlTurn(log) && !m.fails
      modifies this
      ensures Valid() && !IsDraining(log) && |log| == old(|log|) + 1 && old(log) <= log
      ensures LastOf(log).moment == m && LastOf(log).use.Control?
    {
      hide KernelOk, AfterAll, Accounts, IsReaping, Pending, IsDraining, IsForced, KernelAfter, SentLast, IsNext;
      if m.message.Some? {
        requested := m.message.value;
      }
      ghost var e := Entry(m, kernel, Control(requested));
      ghost var force0, sent0 := force, sent;
      Forward();
      ControlNext(setting, start, log, e);
      Appended(setting, start, log, e);
      Controlled(log, e);
      AccountsForce(setting, start, log, force0, sent0, status);
      Recorded(setting, start, log, e, force0, sent0, status, force, sent, status);
      log := log + [e];
    }

    /** `own`, after the leader has been started, over any course of events.  The log of its system calls
        is one that must be, and `Valid` says that everything that was sent is what that log demands. */
    method Own(moments: seq<Moment>) returns (outcome: Outcome)
      requires Valid() && log == []
      modifies this
      ensures Valid() && Follows(log, moments)
      ensures outcome == StillOwning ==> |log| == |moments| && (log != [] ==> LastOf(log).use != Nobody)
      ensures outcome != StillOwning ==> log != [] && LastOf(log).use == Nobody && kernel.family == map[]
      ensures outcome == Raises ==> IsDraining(log)
      ensures outcome.Returns? || outcome.DiesBy? ==> !IsDraining(log)
      ensures outcome.Returns? ==> kernel.leaderStatus == Some(outcome.code) && outcome.code >= 0
      ensures outcome.DiesBy? ==> kernel.leaderStatus == Some(-outcome.signal) && outcome.signal > 0
    {
      hide Valid, Called;
      var next := 0;
      while next < |moments|
        invariant Valid() && !IsDraining(log) && Follows(log, moments) && next == |log|
        invariant CanReap(log) || (IsControlTurn(log) && next == |moments|)
        decreases |moments| - next
      {
        var drained, after := Reap(moments, next);
        next := after;
        if drained {
          outcome := Conclude();
          return;
        }
        if next < |moments| {
          var m := moments[next];
          Interfere(m);
          next := next + 1;
          if m.fails {
            outcome := Drain(m, moments, next);
            return;
          }
          Round(m);
        }
      }
      outcome := StillOwning;
    }

    /** Pass a request on; once a forced stop is requested, every round kills the whole family. */
    method Forward()
      requires KernelOk(setting, kernel)
      modifies `sent, `force, `requested
      ensures requested == 0 && force == (old(force) || old(requested) == SIGKILL)
      ensures sent == old(sent)
                    + ((if old(requested) != 0 then [Sent(old(requested), kernel.family.Keys)] else [])
                       + (if force then [Sent(SIGKILL, kernel.family.Keys)] else []))
    {
      if requested != 0 {
        force := force || requested == SIGKILL;
        SignalFamily(requested);
        requested := 0;
      }
      if force {
        SignalFamily(SIGKILL);
      }
    }

    /** The kill with which a pass of the `finally` block begins, `e` having been the call before it. */
    method Kill(ghost e: Entry)
      requires IsDue(e) && (e.use == Fails || (e.use == Nothing && IsDraining(log)))
      modifies `sent, `log
      ensures Valid() && IsDraining(log) && log == old(log) + [e]
    {
      hide KernelOk, AfterAll, Accounts, IsReaping, Pending, IsDraining, IsForced, KernelAfter, SentLast, IsNext;
      ghost var sent0 := sent;
      SignalFamily(SIGKILL);
      Appended(setting, start, log, e);
      Drained(setting, log, e);
      Recorded(setting, start, log, e, force, sent0, status, force, sent, status);
      log := log + [e];
    }

    /** One turn of reaping in the `finally` block; when nothing is left to reap, a kill is due. */
    method Discard(m: Moment) returns (use: Use, ghost e: Entry)
      requires Valid() && CanReap(log) && IsDraining(log)
      modifies this
      ensures status == old(status) && e.moment == m && e.use == use && IsDraining(log)
      ensures use == Nothing ==> IsDue(e) && log == old(log)
      ensures use != Nothing ==> Valid() && log == old(log) + [e]
      ensures use.Took? || use == Nothing || (use == Nobody && kernel.family == map[])
    {
      hide KernelOk, AfterAll, Accounts, IsReaping, Pending, IsDraining, IsForced,
        KernelAfter, SentLast, SentBy, StatusOf,
        IsNext, IsLog, IsControlTurn;
      Interfere(m);
      ghost var found := kernel;
      use := WaitPid();
      e := Entry(m, found, use);
      ReapedNext(setting, start, log, e);
      TakenOk(setting, found, use);
      if use != Nothing {
        Discarded(setting, start, log, e, force, sent, status);
        log := log + [e];
      }
    }

    /** The `finally` block after a failure: kill and reap until nobody is left, then raise.  What the reaped
        children report, the leader among them, is discarded. */
    method Drain(failed: Moment, moments: seq<Moment>, next0: nat) returns (outcome: Outcome)
      requires Called(failed) && failed.fails && IsControlTurn(log)
      requires Follows(log, moments) && next0 == |log| + 1 <= |moments| && moments[|log|] == failed
      modifies this
      ensures Valid() && status == old(status) && IsDraining(log) && Follows(log, moments)
      ensures outcome in {StillOwning, Raises} && (outcome == Raises <==> LastOf(log).use == Nobody)
      ensures outcome == Raises ==> kernel.family == map[]
      ensures outcome == StillOwning ==> |log| == |moments|
    {
      hide Valid, IsDue, IsDraining;
      var next := next0;
      ghost var e := Entry(failed, kernel, Fails);
      FailureIsDue(failed, e);
      while true
        invariant status == old(status) && Follows(log, moments) && next == |log| + 1 <= |moments|
        invariant IsDue(e) && e.moment == moments[|log|]
        invariant e.use == Fails || (e.use == Nothing && IsDraining(log))
        decreases |moments| - next
      {
        Kill(e);
        var reaping := true;
        ghost var begun := next;
        while reaping && next < |moments|
          invariant status == old(status) && Follows(log, moments) && IsDraining(log) && next <= |moments|
          invariant reaping ==> Valid() && CanReap(log) && next == |log|
          invariant !reaping ==> IsDue(e) && next == |log| + 1 && e.moment == moments[|log|] && e.use == Nothing
          invariant begun <= next && (reaping || begun < next)
          decreases |moments| - next, reaping
        {
          var use;
          use, e := Discard(moments[next]);
          next := next + 1;
          if use.Nobody? {
            return Raises;
          }
          reaping := use.Took?;
        }
        if reaping {
          return StillOwning;
        }
      }
    }

    lemma FailureIsDue(m: Moment, e: Entry)
      requires Called(m) && m.fails && IsControlTurn(log) && e == Entry(m, kernel, Fails)
      ensures IsDue(e)
    {
      hide KernelOk, AfterAll, Accounts, KernelAfter;
    }

    /** After the loop: the leader's status, or death by the leader's signal. */
    method Conclude() returns (outcome: Outcome)
      requires Valid() && !IsDraining(log) && log != [] && LastOf(log).use == Nobody
      ensures kernel.family == map[]
      ensures outcome.Returns? ==> kernel.leaderStatus == Some(outcome.code) && outcome.code >= 0
      ensures outcome.DiesBy? ==> kernel.leaderStatus == Some(-outcome.signal) && outcome.signal > 0
      ensures outcome.Returns? || outcome.DiesBy?
    {
      hide Accounts, KernelAfter, IsDraining;
      AccountsNobody(setting, start, log, force, sent, status);
      var code := if status.Some? then status.value else 127;
      outcome := if code < 0 then DiesBy(-code) else Returns(code);
    }
  }
}
