/** The two ends of the event stream as the objects they are: `createEventChannel` of
    connections.js, and the loop of api.py `event_socket` with storage.py `events_after`. */
module EventChannel {
  import opened Wrappers
  import opened EventStream

  function Doubled(n: nat): (ms: nat)
    ensures ms >= 1000
  {
    if n == 0 then 1000 else 2 * Doubled(n - 1)
  }

  /** The delay before the reconnect after `attempts` failures in a row, in milliseconds. */
  function Backoff(attempts: nat): nat {
    var ms := Doubled(if attempts <= 5 then attempts else 5);
    if ms <= 30000 then ms else 30000
  }

  /** The delays never shrink while the failures go on, and they stay between 1 and 30 seconds. */
  lemma BackoffGrows(attempts: nat)
    ensures 1000 <= Backoff(attempts) <= Backoff(attempts + 1) <= 30000
  {
    assert attempts < 5 ==> Doubled(attempts + 1) >= Doubled(attempts);
  }

  /** The first delay is a second, and each further one doubles, up to half a minute from the sixth on. */
  lemma BackoffDoubles(attempts: nat)
    ensures Backoff(0) == 1000
    ensures Backoff(attempts + 1) == if Backoff(attempts) <= 15000 then 2 * Backoff(attempts) else 30000
    ensures attempts >= 5 ==> Backoff(attempts) == 30000
  {
    assert Doubled(1) == 2 * Doubled(0) && Doubled(2) == 2 * Doubled(1) && Doubled(3) == 2 * Doubled(2);
    assert Doubled(4) == 2 * Doubled(3) && Doubled(5) == 2 * Doubled(4);
    assert attempts < 5 ==> Doubled(attempts + 1) == 2 * Doubled(attempts);
    assert attempts < 5 ==> attempts in {0, 1, 2, 3, 4};
  }

  class EventChannel {
    var cursor: Option<nat>
    var attempts: nat
    var closed: bool
    /** The identifiers that the listeners were called with. */
    var dispatched: seq<nat>
    ghost var first: Option<nat>

    /** The system `w` with this client in it. */
    ghost function In(w: World): World
      reads this
    {
      w.(cursor := cursor, first := first, dispatched := dispatched)
    }

    constructor ()
      ensures In(INITIAL) == INITIAL && attempts == 0 && !closed
    {
      cursor, attempts, closed, dispatched, first := None, 0, false, [], None;
    }

    /** `onmessage` */
    method OnMessage(m: Message, ghost w: World)
      modifies this
      ensures In(w) == Receive(old(In(w)), m)
      ensures attempts == 0 && closed == old(closed)
      ensures dispatched == old(dispatched) + (if m.Event? then [m.id] else [])
      ensures cursor == if m.Ready? || m.Event? then Some(m.id) else old(cursor)
      ensures first == if m.Ready? && old(first).None? then Some(m.id) else old(first)
    {
      attempts := 0;
      if m.Ready? {
        cursor := Some(m.id);
        first := if first.None? then cursor else first;
      }
      if !m.Event? {
        return;
      }
      dispatched := dispatched + [m.id];
      cursor := Some(m.id);
    }

    /** `onclose`: the delay until the next connection, or none if there will be no other. */
    method OnClose(code: nat) returns (delay: Option<nat>)
      modifies `attempts
      ensures delay == if closed || code in {4400, 4403} then None else Some(Backoff(old(attempts)))
      ensures attempts == if delay.Some? then old(attempts) + 1 else old(attempts)
    {
      delay := None;
      if !closed && code !in {4400, 4403} {
        var power, n := 1000, 0;
        while n < attempts && n < 5
          invariant n <= 5 && n <= attempts && unchanged(this)
          invariant power == Doubled(n)
        {
          power, n := power * 2, n + 1;
        }
        delay := Some(if power <= 30000 then power else 30000);
        attempts := attempts + 1;
      }
    }
  }

  // ---------------------------------------------------------------- the server

  lemma RowsFrom(log: seq<nat>, purged: set<nat>, after: nat, i: nat)
    requires i < |log|
    ensures Rows(log[..i + 1], purged, after) ==
      Rows(log[..i], purged, after) + if log[i] > after && log[i] !in purged then [log[i]] else []
  {
    assert log[..i + 1][..i] == log[..i];
  }

  lemma {:induction false} RowsGrow(log: seq<nat>, purged: set<nat>, after: nat, i: nat)
    requires i <= |log|
    ensures |Rows(log[..i], purged, after)| <= |Rows(log, purged, after)|
    ensures Rows(log, purged, after)[..|Rows(log[..i], purged, after)|] == Rows(log[..i], purged, after)
    decreases |log|
  {
    if i == |log| {
      assert log[..i] == log;
    } else {
      assert log[..|log| - 1][..i] == log[..i];
      RowsGrow(log[..|log| - 1], purged, after, i);
    }
  }

  /** `SELECT * FROM events WHERE id > after ORDER BY id LIMIT 500` */
  method SelectAfter(log: seq<nat>, purged: set<nat>, after: nat) returns (page: seq<nat>)
    ensures page == EventsAfter(log, purged, after)
  {
    hide Rows;
    page := [];
    var i := 0;
    NoRows(log, purged, after);
    while i < |log| && |page| < PAGE_LIMIT
      invariant i <= |log| && |page| <= PAGE_LIMIT
      invariant page == Rows(log[..i], purged, after)
    {
      RowsFrom(log, purged, after, i);
      if log[i] > after && log[i] !in purged {
        page := page + [log[i]];
      }
      i := i + 1;
    }
    RowsGrow(log, purged, after, i);
    if i == |log| {
      assert log[..i] == log;
    }
  }

  lemma NoRows(log: seq<nat>, purged: set<nat>, after: nat)
    ensures Rows(log[..0], purged, after) == []
  {
  }

  /** Steps of the system, one after the other. */
  ghost predicate CanTake(w: World, ss: seq<Step>)
    decreases ss
  {
    ss == [] || (Enabled(w, ss[0]) && CanTake(Do(w, ss[0]), ss[1..]))
  }

  ghost function Taken(w: World, ss: seq<Step>): World
    requires CanTake(w, ss)
    decreases ss
  {
    if ss == [] then w else Taken(Do(w, ss[0]), ss[1..])
  }

  lemma {:induction false} TakeOneMore(w: World, ss: seq<Step>, s: Step)
    requires CanTake(w, ss) && Enabled(Taken(w, ss), s)
    ensures CanTake(w, ss + [s]) && Taken(w, ss + [s]) == Do(Taken(w, ss), s)
    decreases ss
  {
    hide Do, Enabled;
    if ss == [] {
      assert [] + [s] == [s];
      assert [s][1..] == [];
    } else {
      assert (ss + [s])[1..] == ss[1..] + [s];
      TakeOneMore(Do(w, ss[0]), ss[1..], s);
    }
  }

  /** One pass of the server loop that sends `n` events. */
  function PassSteps(n: nat): seq<Step> {
    [FetchPage] + seq(n, i => SendEvent) + [SendHeartbeat]
  }

  /** A pass begins with a fetch, ends with a heartbeat, and does nothing between but send. */
  lemma PassIs(n: nat, i: nat)
    ensures |PassSteps(n)| == n + 2 && PassSteps(n)[0] == FetchPage && PassSteps(n)[n + 1] == SendHeartbeat
    ensures 0 < i <= n ==> PassSteps(n)[i] == SendEvent
  {
  }

  /** The server side of one connection: `event_socket`. */
  class EventSocket {
    const after: Option<nat>
    var ready: bool
    var cursor: nat
    var page: seq<nat>
    /** What has been sent and not yet received. */
    var channel: seq<Message>

    /** The system `w` with this connection in it. */
    ghost function In(w: World): World
      reads this
    {
      w.(connection := Some(Connection(if ready then Streaming(cursor, page) else Accepted(after), channel)))
    }

    /** The accepted connection of a client whose cursor is `after`. */
    constructor (after: Option<nat>, ghost w: World)
      requires Enabled(w, Connect) && after == w.cursor
      ensures In(w) == Do(w, Connect) && this.after == after && !ready
    {
      this.after := after;
      ready, cursor, page, channel := false, 0, [], [];
    }

    /** `_initial_event_cursor` and the `ready` message. */
    method Start(log: seq<nat>, purged: set<nat>, ghost w: World)
      requires !ready && w.log == log && w.purged == purged
      modifies this
      ensures Enabled(old(In(w)), SendReady) && In(w) == Do(old(In(w)), SendReady) && ready && page == []
      ensures cursor == if after.Some? then after.value else Latest(log, purged)
      ensures channel == old(channel) + [Ready(cursor)]
    {
      cursor := if after.Some? then after.value else Latest(log, purged);
      ready, page, channel := true, [], channel + [Ready(cursor)];
    }

    method Fetch(log: seq<nat>, purged: set<nat>, ghost w: World)
      requires ready && page == [] && w.log == log && w.purged == purged
      modifies this
      ensures Enabled(old(In(w)), FetchPage) && In(w) == Do(old(In(w)), FetchPage)
      ensures ready && page == EventsAfter(log, purged, old(cursor)) && cursor == old(cursor) && channel == old(channel)
    {
      hide EventsAfter;
      page := SelectAfter(log, purged, cursor);
    }

    method SendNext(ghost w: World)
      requires ready && page != []
      modifies this
      ensures Enabled(old(In(w)), SendEvent) && In(w) == Do(old(In(w)), SendEvent)
      ensures ready && page == old(page)[1..] && cursor == old(page)[0]
        && channel == old(channel) + [Event(old(page)[0])]
    {
      cursor, channel := page[0], channel + [Event(page[0])];
      page := page[1..];
    }

    method Beat(ghost w: World)
      requires ready
      modifies this
      ensures Enabled(old(In(w)), SendHeartbeat) && In(w) == Do(old(In(w)), SendHeartbeat)
      ensures ready && page == old(page) && cursor == old(cursor) && channel == old(channel) + [Heartbeat]
    {
      channel := channel + [Heartbeat];
    }

    /** One pass of the server loop that is not cut short is a fetch, one send for each event of the
        page, and a heartbeat; it sends the page in order, and the cursor follows. */
    method Pass(log: seq<nat>, purged: set<nat>, ghost w: World) returns (ghost sent: seq<Message>)
      requires ready && page == [] && w.log == log && w.purged == purged
      modifies this
      ensures ready && page == []
      ensures var found := EventsAfter(log, purged, old(cursor));
              && CanTake(old(In(w)), PassSteps(|found|)) && In(w) == Taken(old(In(w)), PassSteps(|found|))
              && channel == old(channel) + sent && InFlight(sent) == found && cursor == End(old(cursor), found)
      ensures sent != [] && sent[|sent| - 1] == Heartbeat && forall m :: m in sent ==> !m.Ready?
    {
      hide EventsAfter, Do, Enabled, CanTake, Taken, InFlight;
      ghost var start := In(w);
      ghost var found, n := EventsAfter(log, purged, cursor), |EventsAfter(log, purged, cursor)|;
      ghost var ss: seq<Step> := [];
      sent := [];
      NothingTaken(start);
      Fetch(log, purged, w);
      TakeOneMore(start, ss, FetchPage);
      ss := ss + [FetchPage];
      ghost var k := 0;
      assert ss == [FetchPage] + seq(k, (i: nat) => SendEvent);
      assert found[0..] == found && found[..0] == [] && channel == old(channel) + sent;
      while page != []
        invariant ready && k <= n && page == found[k..] && ss == [FetchPage] + seq(k, i => SendEvent)
        invariant CanTake(start, ss) && In(w) == Taken(start, ss)
        invariant channel == old(channel) + sent && InFlight(sent) == found[..k]
          && cursor == End(old(cursor), found[..k])
        invariant forall m :: m in sent ==> !m.Ready?
        decreases |page|
      {
        SendNext(w);
        TakeOneMore(start, ss, SendEvent);
        ss := ss + [SendEvent];
        OneMoreSend(k);
        SentMore(sent, Event(found[k]));
        sent := sent + [Event(found[k])];
        assert found[..k + 1] == found[..k] + [found[k]] && found[k..][1..] == found[k + 1..];
        k := k + 1;
      }
      assert k == n && found[..n] == found;
      Beat(w);
      TakeOneMore(start, ss, SendHeartbeat);
      SentMore(sent, Heartbeat);
      sent := sent + [Heartbeat];
    }
  }

  lemma SentMore(sent: seq<Message>, m: Message)
    ensures InFlight(sent + [m]) == InFlight(sent) + if m.Event? then [m.id] else []
  {
    assert (sent + [m])[..|sent|] == sent;
  }

  lemma NothingTaken(w: World)
    ensures CanTake(w, []) && Taken(w, []) == w && InFlight([]) == []
  {
  }

  lemma OneMoreSend(k: nat)
    ensures [FetchPage] + seq(k, i => SendEvent) + [SendEvent] == [FetchPage] + seq(k + 1, i => SendEvent)
  {
  }

  /** Whatever page a pass finds, the client's stream stays unbroken through it. */
  lemma {:induction false} StepsKeep(w: World, ss: seq<Step>)
    requires Inv(w) && CanTake(w, ss)
    ensures Inv(Taken(w, ss))
    decreases ss
  {
    hide Inv, Do, Enabled;
    if ss != [] {
      StepKeeps(w, ss[0]);
      StepsKeep(Do(w, ss[0]), ss[1..]);
    }
  }
}
