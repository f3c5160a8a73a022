/** The resumable event stream: storage.py `events_after`, api.py `event_socket`, and the client
    of connections.js, over any pattern of disconnects, reconnects and restarts.

    One step is one event insertion, one retention pass, one await of the server loop, or one
    callback of the client. */
module EventStream {
  import opened Wrappers

  // ---------------------------------------------------------------- the stored events

  const PAGE_LIMIT := 500

  ghost predicate Increasing(ids: seq<nat>) {
    forall i, j :: 0 <= i < j < |ids| ==> ids[i] < ids[j]
  }

  /** Where a reader that has consumed `ids` from `from` on stands. */
  function End(from: nat, ids: seq<nat>): nat {
    if ids == [] then from else ids[|ids| - 1]
  }

  /** The rows that are left with an identifier above `after`, in order. */
  function Rows(log: seq<nat>, purged: set<nat>, after: nat): seq<nat> {
    if log == [] then [] else
    var last := log[|log| - 1];
    Rows(log[..|log| - 1], purged, after) + if last > after && last !in purged then [last] else []
  }

  function EventsAfter(log: seq<nat>, purged: set<nat>, after: nat): seq<nat> {
    var rows := Rows(log, purged, after);
    if |rows| <= PAGE_LIMIT then rows else rows[..PAGE_LIMIT]
  }

  /** `COALESCE(MAX(id), 0)` */
  function Latest(log: seq<nat>, purged: set<nat>): nat {
    End(0, Rows(log, purged, 0))
  }

  // ---------------------------------------------------------------- the system

  datatype Message = Ready(id: nat) | Event(id: nat) | Heartbeat

  /** The server side of one connection: accepted with a cursor of the client, or streaming with
      a cursor of its own and the unsent rest of a page. */
  datatype Server = Accepted(after: Option<nat>) | Streaming(cursor: nat, page: seq<nat>)

  datatype Connection = Connection(server: Server, channel: seq<Message>)

  /** `log` holds every identifier ever inserted, oldest first; `first` is the first `ready` that
      the client received, `dispatched` what its listeners were called with. */
  datatype World = World(
    log: seq<nat>,
    purged: set<nat>,
    connection: Option<Connection>,
    cursor: Option<nat>,
    first: Option<nat>,
    dispatched: seq<nat>)

  const INITIAL := World([], {}, None, None, None, [])

  datatype Step =
    | Insert(id: nat)
    | Purge(ids: set<nat>)
    | Connect
    | SendReady
    | FetchPage
    | SendEvent
    | SendHeartbeat
    | Deliver
    | Disconnect

  ghost predicate Enabled(w: World, s: Step) {
    match s
    case Insert(id) => id > End(0, w.log)
    case Purge(_) => true
    case Connect => w.connection.None?
    case SendReady => w.connection.Some? && w.connection.value.server.Accepted?
    case FetchPage => w.connection.Some? && w.connection.value.server.Streaming? && w.connection.value.server.page == []
    case SendEvent => w.connection.Some? && w.connection.value.server.Streaming? && w.connection.value.server.page != []
    case SendHeartbeat => w.connection.Some? && w.connection.value.server.Streaming?
    case Deliver => w.connection.Some? && w.connection.value.channel != []
    case Disconnect => w.connection.Some?
  }

  function Send(c: Connection, server: Server, m: Message): Option<Connection> {
    Some(Connection(server, c.channel + [m]))
  }

  /** `onmessage` */
  function Receive(w: World, m: Message): World {
    match m
    case Ready(id) => w.(cursor := Some(id), first := if w.first.None? then Some(id) else w.first)
    case Event(id) => w.(dispatched := w.dispatched + [id], cursor := Some(id))
    case Heartbeat => w
  }

  ghost function Do(w: World, s: Step): World
    requires Enabled(w, s)
  {
    match s
    case Insert(id) => w.(log := w.log + [id])
    case Purge(ids) => w.(purged := w.purged + ids)
    case Connect => w.(connection := Some(Connection(Accepted(w.cursor), [])))
    case SendReady =>
      var c := w.connection.value;
      var start := if c.server.after.Some? then c.server.after.value else Latest(w.log, w.purged);
      w.(connection := Send(c, Streaming(start, []), Ready(start)))
    case FetchPage =>
      var c := w.connection.value;
      w.(connection := Some(c.(server := c.server.(page := EventsAfter(w.log, w.purged, c.server.cursor)))))
    case SendEvent =>
      var c := w.connection.value;
      var id := c.server.page[0];
      w.(connection := Send(c, Streaming(id, c.server.page[1..]), Event(id)))
    case SendHeartbeat =>
      var c := w.connection.value;
      w.(connection := Send(c, c.server, Heartbeat))
    case Deliver =>
      var c := w.connection.value;
      Receive(w.(connection := Some(c.(channel := c.channel[1..]))), c.channel[0])
    case Disconnect => w.(connection := None)
  }

  // ---------------------------------------------------------------- what a reader has covered

  /** `ids` are what a reader that started at `from` must have seen by now: rows above `from`, in
      order, with nothing between left out unless it was purged. */
  ghost predicate Linked(log: seq<nat>, purged: set<nat>, from: nat, ids: seq<nat>) {
    && Increasing(ids)
    && (forall i :: 0 <= i < |ids| ==> ids[i] in log && ids[i] > from)
    && (forall id :: id in log && from < id <= End(from, ids) ==> id in ids || id in purged)
  }

  lemma LinkedNothing(log: seq<nat>, purged: set<nat>, from: nat)
    ensures Linked(log, purged, from, [])
  {
  }

  lemma LinkedJoin(log: seq<nat>, purged: set<nat>, from: nat, a: seq<nat>, b: seq<nat>)
    requires Linked(log, purged, from, a) && Linked(log, purged, End(from, a), b)
    ensures Linked(log, purged, from, a + b)
  {
    assert a != [] ==> End(from, a) > from;
    forall i, j | 0 <= i < j < |a + b| ensures (a + b)[i] < (a + b)[j] {
      if i < |a| <= j {
        assert a[i] <= End(from, a) < b[j - |a|];
      }
    }
    forall id | id in log && from < id <= End(from, a + b) ensures id in a + b || id in purged {
      if id > End(from, a) {
        assert End(from, a + b) == End(End(from, a), b);
      }
    }
  }

  lemma LinkedPrefix(log: seq<nat>, purged: set<nat>, from: nat, a: seq<nat>, b: seq<nat>)
    requires Linked(log, purged, from, a + b)
    ensures Linked(log, purged, from, a)
  {
    var ids := a + b;
    assert forall i :: 0 <= i < |a| ==> a[i] == ids[i];
    if a != [] {
      assert End(from, a) == ids[|a| - 1] <= End(from, ids);
      forall id | id in log && from < id <= End(from, a) ensures id in a || id in purged {
        if id in ids {
          var k :| 0 <= k < |ids| && ids[k] == id;
          assert k <= |a| - 1;
        }
      }
    }
  }

  lemma LinkedEnds(log: seq<nat>, purged: set<nat>, from: nat, ids: seq<nat>)
    requires Linked(log, purged, from, ids) && Increasing(log) && from <= End(0, log)
    ensures from <= End(from, ids) <= End(0, log)
  {
    if ids != [] {
      var i :| 0 <= i < |log| && log[i] == ids[|ids| - 1];
    }
  }

  lemma LinkedInsert(log: seq<nat>, purged: set<nat>, from: nat, ids: seq<nat>, id: nat)
    requires Linked(log, purged, from, ids) && Increasing(log) && from <= End(0, log) && id > End(0, log)
    ensures Linked(log + [id], purged, from, ids) && Increasing(log + [id])
  {
    LinkedEnds(log, purged, from, ids);
  }

  lemma {:induction false} RowsLinked(log: seq<nat>, purged: set<nat>, after: nat)
    requires Increasing(log)
    ensures var rows := Rows(log, purged, after);
            && Increasing(rows)
            && (forall i :: 0 <= i < |rows| ==> rows[i] in log && rows[i] > after && rows[i] !in purged)
            && (forall id :: id in log && id > after ==> id in rows || id in purged)
  {
    if log != [] {
      var before, last := log[..|log| - 1], log[|log| - 1];
      assert log == before + [last];
      RowsLinked(before, purged, after);
    }
  }

  lemma PageLinked(log: seq<nat>, purged: set<nat>, after: nat)
    requires Increasing(log)
    ensures Linked(log, purged, after, EventsAfter(log, purged, after))
    ensures |EventsAfter(log, purged, after)| <= PAGE_LIMIT
  {
    RowsLinked(log, purged, after);
    var rows, page := Rows(log, purged, after), EventsAfter(log, purged, after);
    assert Linked(log, purged, after, rows);
    assert rows == page + rows[|page|..];
    LinkedPrefix(log, purged, after, page, rows[|page|..]);
  }

  lemma LatestIsStored(log: seq<nat>, purged: set<nat>)
    requires Increasing(log)
    ensures Latest(log, purged) <= End(0, log)
  {
    RowsLinked(log, purged, 0);
    LinkedEnds(log, purged, 0, Rows(log, purged, 0));
  }

  // ---------------------------------------------------------------- the invariant

  /** The identifiers of the events on the way. */
  function InFlight(channel: seq<Message>): seq<nat> {
    if channel == [] then [] else
    var rest := InFlight(channel[..|channel| - 1]);
    match channel[|channel| - 1]
    case Event(id) => rest + [id]
    case _ => rest
  }

  lemma Inner(channel: seq<Message>)
    requires |channel| > 1
    ensures channel[..|channel| - 1][1..] == channel[1..][..|channel| - 2]
    ensures channel[1..][|channel| - 2] == channel[|channel| - 1] && channel[..|channel| - 1][0] == channel[0]
  {
  }

  lemma {:induction false} InFlightFirst(channel: seq<Message>)
    requires channel != []
    ensures InFlight(channel) == (if channel[0].Event? then [channel[0].id] else []) + InFlight(channel[1..])
  {
    var n := |channel| - 1;
    if n == 0 {
      assert channel[..0] == [] && channel[1..] == [];
      assert InFlight([]) == [];
    } else {
      InFlightFirst(channel[..n]);
      Inner(channel);
    }
  }

  /** A `ready` can only be the first message of a connection. */
  ghost predicate ReadyFirst(channel: seq<Message>) {
    forall i :: 0 < i < |channel| ==> !channel[i].Ready?
  }

  /** Where the client's stream begins: its first `ready`, received or on the way. */
  function Anchor(w: World): Option<nat> {
    if w.first.Some? then w.first
    else if w.connection.Some? && w.connection.value.channel != [] && w.connection.value.channel[0].Ready?
    then Some(w.connection.value.channel[0].id)
    else None
  }

  function Page(c: Connection): seq<nat> {
    if c.server.Streaming? then c.server.page else []
  }

  ghost predicate ClientOk(w: World) {
    && (w.first.Some? <==> w.cursor.Some?)
    && (w.first.None? ==> w.dispatched == [])
    && (w.first.Some? ==>
         && w.cursor.value == End(w.first.value, w.dispatched)
         && w.first.value <= End(0, w.log)
         && Linked(w.log, w.purged, w.first.value, w.dispatched))
  }

  ghost predicate ConnectionOk(w: World, c: Connection) {
    && ReadyFirst(c.channel)
    && (c.server.Accepted? ==> c.channel == [] && c.server.after == w.cursor)
    && (c.server.Streaming? ==>
         && Anchor(w).Some?
         && (w.cursor.Some? && c.channel != [] && c.channel[0].Ready? ==> c.channel[0].id == w.cursor.value)
         && Anchor(w).value <= End(0, w.log)
         && c.server.cursor == End(Anchor(w).value, w.dispatched + InFlight(c.channel))
         && Linked(w.log, w.purged, Anchor(w).value, w.dispatched + InFlight(c.channel) + c.server.page))
  }

  ghost predicate Inv(w: World) {
    && Increasing(w.log)
    && ClientOk(w)
    && (w.connection.Some? ==> ConnectionOk(w, w.connection.value))
  }

  lemma InitialOk()
    ensures Inv(INITIAL)
  {
  }

  lemma InsertKeeps(w: World, id: nat)
    requires Inv(w) && Enabled(w, Insert(id))
    ensures Inv(Do(w, Insert(id)))
  {
    hide Linked;
    if w.first.Some? {
      LinkedInsert(w.log, w.purged, w.first.value, w.dispatched, id);
    }
    if w.connection.Some? && w.connection.value.server.Streaming? {
      var c := w.connection.value;
      LinkedInsert(w.log, w.purged, Anchor(w).value, w.dispatched + InFlight(c.channel) + c.server.page, id);
    }
    IncreasingSnoc(w.log, id);
  }

  lemma IncreasingSnoc(log: seq<nat>, id: nat)
    requires Increasing(log) && id > End(0, log)
    ensures Increasing(log + [id])
  {
  }

  lemma PurgeKeeps(w: World, ids: set<nat>)
    requires Inv(w)
    ensures Inv(Do(w, Purge(ids)))
  {
  }

  lemma OnlyReady(channel: seq<Message>)
    requires |channel| == 1 && channel[0].Ready?
    ensures InFlight(channel) == [] && ReadyFirst(channel)
  {
    assert InFlight(channel[..0]) == [];
  }

  lemma SendReadyKeeps(w: World)
    requires Inv(w) && Enabled(w, SendReady)
    ensures Inv(Do(w, SendReady))
  {
    hide Linked, Increasing, Latest, InFlight, ReadyFirst;
    LatestIsStored(w.log, w.purged);
    var x := Do(w, SendReady);
    var c := x.connection.value;
    OnlyReady(c.channel);
    assert w.dispatched + [] + [] == w.dispatched;
    if w.first.None? {
      LinkedNothing(w.log, w.purged, Anchor(x).value);
    }
    assert ConnectionOk(x, c);
  }

  lemma FetchPageKeeps(w: World)
    requires Inv(w) && Enabled(w, FetchPage)
    ensures Inv(Do(w, FetchPage))
  {
    hide Linked, Increasing, EventsAfter;
    var c := w.connection.value;
    PageLinked(w.log, w.purged, c.server.cursor);
    var read := w.dispatched + InFlight(c.channel);
    assert read + [] == read;
    LinkedJoin(w.log, w.purged, Anchor(w).value, read, EventsAfter(w.log, w.purged, c.server.cursor));
  }

  lemma SendEventKeeps(w: World)
    requires Inv(w) && Enabled(w, SendEvent)
    ensures Inv(Do(w, SendEvent))
  {
    hide Linked, Increasing;
    var c := w.connection.value;
    var x := Do(w, SendEvent);
    var id, rest := c.server.page[0], c.server.page[1..];
    assert x.connection.value.channel[..|c.channel|] == c.channel;
    assert InFlight(x.connection.value.channel) == InFlight(c.channel) + [id];
    assert w.dispatched + InFlight(c.channel) + c.server.page == w.dispatched + (InFlight(c.channel) + [id]) + rest;
  }

  lemma SendHeartbeatKeeps(w: World)
    requires Inv(w) && Enabled(w, SendHeartbeat)
    ensures Inv(Do(w, SendHeartbeat))
  {
    hide Linked, Increasing;
    var x := Do(w, SendHeartbeat);
    assert x.connection.value.channel[..|w.connection.value.channel|] == w.connection.value.channel;
  }

  lemma Regroup(a: seq<nat>, b: seq<nat>, c: seq<nat>, d: seq<nat>)
    ensures a + (b + c) == a + b + c
    ensures a + (b + c) + d == a + b + (c + d) == a + b + c + d
  {
  }

  lemma ReadyGone(channel: seq<Message>)
    requires ReadyFirst(channel) && channel != []
    ensures ReadyFirst(channel[1..]) && (channel[1..] != [] ==> !channel[1..][0].Ready?)
  {
  }

  lemma DeliverKeeps(w: World)
    requires Inv(w) && Enabled(w, Deliver)
    ensures Inv(Do(w, Deliver))
  {
    hide Linked, Increasing, InFlight, ReadyFirst;
    var c := w.connection.value;
    InFlightFirst(c.channel);
    ReadyGone(c.channel);
    var m, rest := c.channel[0], InFlight(c.channel[1..]);
    if m.Event? {
      Regroup(w.dispatched, [m.id], rest, c.server.page);
      LinkedPrefix(w.log, w.purged, Anchor(w).value, w.dispatched + [m.id], rest + c.server.page);
    } else {
      assert [] + rest == rest;
      if m.Ready? && w.first.None? {
        LinkedNothing(w.log, w.purged, m.id);
      }
    }
  }

  /** Every step keeps the invariant. */
  lemma StepKeeps(w: World, s: Step)
    requires Inv(w) && Enabled(w, s)
    ensures Inv(Do(w, s))
  {
    hide Linked, Increasing, EventsAfter, Latest;
    match s
    case Insert(id) => InsertKeeps(w, id);
    case Purge(ids) => PurgeKeeps(w, ids);
    case Connect =>
    case SendReady => SendReadyKeeps(w);
    case FetchPage => FetchPageKeeps(w);
    case SendEvent => SendEventKeeps(w);
    case SendHeartbeat => SendHeartbeatKeeps(w);
    case Deliver => DeliverKeeps(w);
    case Disconnect =>
  }

  // ---------------------------------------------------------------- runs

  ghost predicate IsRun(ws: seq<World>, ss: seq<Step>) {
    && |ws| == |ss| + 1 && ws[0] == INITIAL
    && forall i :: 0 <= i < |ss| ==> Enabled(ws[i], ss[i]) && ws[i + 1] == Do(ws[i], ss[i])
  }

  lemma {:induction false} RunKeeps(ws: seq<World>, ss: seq<Step>, i: nat)
    requires IsRun(ws, ss) && i < |ws|
    ensures Inv(ws[i])
  {
    hide Inv, Do, Enabled;
    if i == 0 {
      InitialOk();
    } else {
      RunKeeps(ws, ss, i - 1);
      assert Enabled(ws[i - 1], ss[i - 1]) && ws[i - 1 + 1] == Do(ws[i - 1], ss[i - 1]);
      StepKeeps(ws[i - 1], ss[i - 1]);
    }
  }

  /** At every moment of every run: what the client dispatched are stored identifiers above its
      first `ready`, increasing, and none up to its cursor is missing unless retention purged it. */
  lemma NothingLostOrRepeated(ws: seq<World>, ss: seq<Step>, i: nat)
    requires IsRun(ws, ss) && i < |ws| && ws[i].first.Some?
    ensures var w := ws[i];
            && w.cursor.Some?
            && Increasing(w.dispatched)
            && (forall id :: id in w.dispatched ==> id in w.log && w.first.value < id <= w.cursor.value)
            && (forall id :: id in w.log && w.first.value < id <= w.cursor.value ==>
                  id in w.dispatched || id in w.purged)
  {
    RunKeeps(ws, ss, i);
  }

  /** The stored identifiers in a range. */
  function Between(log: seq<nat>, low: nat, high: nat): seq<nat> {
    if log == [] then [] else
    var last := log[|log| - 1];
    Between(log[..|log| - 1], low, high) + if low < last <= high then [last] else []
  }

  lemma {:induction false} BetweenIs(log: seq<nat>, low: nat, high: nat)
    requires Increasing(log)
    ensures Increasing(Between(log, low, high))
    ensures forall id :: id in Between(log, low, high) <==> id in log && low < id <= high
  {
    if log != [] {
      var before, last := log[..|log| - 1], log[|log| - 1];
      assert log == before + [last];
      assert forall id :: id in before ==> id < last;
      BetweenIs(before, low, high);
      var rest := Between(before, low, high);
      if low < last <= high {
        assert rest != [] ==> rest[|rest| - 1] in rest;
        IncreasingSnoc(rest, last);
      }
    }
  }

  lemma InitMembers(a: seq<nat>)
    requires Increasing(a) && a != []
    ensures a[|a| - 1] in a && Increasing(a[..|a| - 1])
    ensures forall id :: id in a[..|a| - 1] <==> id in a && id != a[|a| - 1]
    ensures forall id :: id in a ==> id <= a[|a| - 1]
    ensures a == a[..|a| - 1] + [a[|a| - 1]]
  {
  }

  lemma {:induction false} IncreasingUnique(a: seq<nat>, b: seq<nat>)
    requires Increasing(a) && Increasing(b) && forall id :: id in a <==> id in b
    ensures a == b
  {
    hide Increasing;
    SomeMember(a);
    SomeMember(b);
    if a != [] && b != [] {
      InitMembers(a);
      InitMembers(b);
      var x, y, c, d := a[|a| - 1], b[|b| - 1], a[..|a| - 1], b[..|b| - 1];
      assert x in b && y in a && x == y;
      forall id ensures id in c <==> id in d {
        assert id in a <==> id in b;
      }
      IncreasingUnique(c, d);
    }
  }

  lemma SomeMember(a: seq<nat>)
    ensures a == [] || a[0] in a
  {
  }

  /** A client without a cursor starts at the newest event that is left, or at 0. */
  lemma {:induction false} LatestIs(log: seq<nat>, purged: set<nat>)
    requires Increasing(log)
    ensures forall id :: id in log && id !in purged ==> id <= Latest(log, purged)
    ensures Latest(log, purged) == 0 || (Latest(log, purged) in log && Latest(log, purged) !in purged)
    decreases |log|
  {
    if log != [] {
      InitMembers(log);
      LatestIs(log[..|log| - 1], purged);
    }
  }

  /** Insertion appends one event, retention hides some, and neither touches a connection. */
  lemma StoreMeans(w: World, id: nat, ids: set<nat>)
    ensures Enabled(w, Insert(id)) ==>
              var v := Do(w, Insert(id)); v.log == w.log + [id] && v.purged == w.purged && v.connection == w.connection
    ensures var v := Do(w, Purge(ids));
            v.log == w.log && v.connection == w.connection && forall n :: n in v.purged <==> n in w.purged || n in ids
  {
  }

  /** While nothing is purged, the client has dispatched exactly the stored identifiers above its
      first `ready` up to its cursor, each once and in order. */
  lemma ExactlyTheStored(ws: seq<World>, ss: seq<Step>, i: nat)
    requires IsRun(ws, ss) && i < |ws| && ws[i].first.Some? && ws[i].purged == {}
    ensures ws[i].cursor.Some?
    ensures ws[i].dispatched == Between(ws[i].log, ws[i].first.value, ws[i].cursor.value)
  {
    RunKeeps(ws, ss, i);
    NothingLostOrRepeated(ws, ss, i);
    var w := ws[i];
    BetweenIs(w.log, w.first.value, w.cursor.value);
    IncreasingUnique(w.dispatched, Between(w.log, w.first.value, w.cursor.value));
  }

  /** When a fetch finds no more and nothing is on the way, the client has everything. */
  lemma CaughtUp(ws: seq<World>, ss: seq<Step>, i: nat)
    requires IsRun(ws, ss) && i < |ws| && ws[i].connection.Some?
    requires var c := ws[i].connection.value;
             c.server.Streaming? && c.server.page == [] && c.channel == [] &&
             EventsAfter(ws[i].log, ws[i].purged, c.server.cursor) == []
    ensures ws[i].first.Some?
    ensures forall id :: id in ws[i].log && id > ws[i].first.value ==> id in ws[i].dispatched || id in ws[i].purged
  {
    RunKeeps(ws, ss, i);
    var w := ws[i];
    RowsLinked(w.log, w.purged, w.connection.value.server.cursor);
  }
}
