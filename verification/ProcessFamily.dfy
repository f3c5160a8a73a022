/** process_owner.py: the family of processes below the owner, as `_descendants` finds it and as the
    kernel changes it. */
module ProcessFamily {
  import opened Wrappers
  import opened Reachability

  type Pid = nat

  // ---------------------------------------------------------------- _descendants

  /** `/proc/PID/task/TID/children`: one list of children per thread. */
  type ProcTable = map<Pid, seq<set<Pid>>>

  function Union(lists: seq<set<Pid>>): set<Pid> {
    if lists == [] then {} else Union(lists[..|lists| - 1]) + lists[|lists| - 1]
  }

  function ChildGraph(table: ProcTable): Graph<Pid> {
    map p | p in table :: Union(table[p])
  }

  lemma {:induction false} UnionBounds(lists: seq<set<Pid>>, n: nat)
    requires n <= |lists|
    ensures Union(lists[..n]) <= Union(lists)
    decreases |lists| - n
  {
    if n == |lists| {
      assert lists[..n] == lists;
    } else {
      UnionBounds(lists, n + 1);
      assert lists[..n + 1][..n] == lists[..n];
    }
  }

  /** Any order of the elements of a set. */
  method Listed(s: set<Pid>) returns (list: seq<Pid>)
    ensures |list| == |s| && forall x :: x in list <==> x in s
  {
    list := [];
    var rest := s;
    while rest != {}
      invariant rest <= s && |list| + |rest| == |s|
      invariant forall x :: x in list <==> x in s - rest
      decreases rest
    {
      var x :| x in rest;
      list, rest := list + [x], rest - {x};
    }
  }

  /** Found so far: reachable, and closed except for what is pending. */
  ghost predicate Searching(g: Graph<Pid>, pid: Pid, found: set<Pid>, pending: seq<Pid>) {
    && found <= Nodes(g)
    && (forall x :: x in found ==> Reaches(g, pid, x))
    && (forall x :: x in pending ==> x == pid || x in found)
    && (forall x :: (x == pid || x in found) && x !in pending ==> Successors(g, x) <= found)
  }

  lemma SearchStarts(g: Graph<Pid>, pid: Pid)
    ensures Searching(g, pid, {}, [pid])
  {
    assert [pid][0] == pid;
  }

  /** One more list of children of `parent`. */
  lemma SearchTakes(g: Graph<Pid>, pid: Pid, found: set<Pid>, pending: seq<Pid>, parent: Pid,
      children: set<Pid>, added: seq<Pid>)
    requires Searching(g, pid, found, pending + [parent]) && (parent == pid || parent in found)
    requires children <= Successors(g, parent) && forall x :: x in added <==> x in children - found
    ensures Searching(g, pid, found + children, pending + added + [parent])
  {
    hide Successors, Reaches, Nodes;
    forall x | x in children ensures Reaches(g, pid, x) && x in Nodes(g) {
      RootReaches(g, pid, parent, x);
    }
    forall x | (x == pid || x in found + children) && x !in pending + added + [parent]
      ensures Successors(g, x) <= found + children
    {
      assert x !in added && x !in pending + [parent];
    }
  }

  /** A process whose children are all found is no longer pending. */
  lemma SearchDone(g: Graph<Pid>, pid: Pid, found: set<Pid>, pending: seq<Pid>, parent: Pid)
    requires Searching(g, pid, found, pending + [parent]) && Successors(g, parent) <= found
    ensures Searching(g, pid, found, pending)
  {
    hide Successors, Reaches, Nodes;
  }

  lemma SearchEnds(g: Graph<Pid>, pid: Pid, found: set<Pid>)
    requires Searching(g, pid, found, [])
    ensures forall x :: x in found <==> Reaches(g, pid, x)
  {
    hide Reaches;
    ClosedHoldsReachable(g, pid, found);
  }

  lemma SearchFacts(g: Graph<Pid>, pid: Pid, found: set<Pid>, pending: seq<Pid>, parent: Pid)
    requires Searching(g, pid, found, pending + [parent])
    ensures found <= Nodes(g) && (parent == pid || parent in found)
  {
    assert (pending + [parent])[|pending|] == parent;
  }

  /** Exactly the processes below `pid`. */
  method Descendants(table: ProcTable, pid: Pid) returns (found: set<Pid>)
    ensures forall x :: x in found <==> Reaches(ChildGraph(table), pid, x)
  {
    hide Searching, Reaches, Nodes, ChildGraph;
    ghost var g := ChildGraph(table);
    found := {};
    var pending := [pid];
    SearchStarts(g, pid);
    while pending != []
      invariant Searching(g, pid, found, pending)
      decreases |Nodes(g) - found|, |pending|
    {
      var parent := pending[|pending| - 1];
      assert pending == pending[..|pending| - 1] + [parent];
      pending := pending[..|pending| - 1];
      SearchFacts(g, pid, found, pending, parent);
      ghost var found0 := found;
      if parent in table {
        found, pending := Children(table, pid, parent, found, pending);
      } else {
        NoChildren(table, parent);
      }
      SearchDone(g, pid, found, pending, parent);
      SearchBound(g, pid, found, pending);
      Shrinks(Nodes(g), found0, found);
    }
    SearchEnds(g, pid, found);
  }

  lemma SearchBound(g: Graph<Pid>, pid: Pid, found: set<Pid>, pending: seq<Pid>)
    requires Searching(g, pid, found, pending)
    ensures found <= Nodes(g)
  {
  }

  lemma NoChildren(table: ProcTable, p: Pid)
    requires p !in table
    ensures Successors(ChildGraph(table), p) == {}
  {
  }

  lemma Shrinks(all: set<Pid>, a: set<Pid>, b: set<Pid>)
    requires a <= b <= all
    ensures a == b || |all - b| < |all - a|
  {
    assert all - a == (all - b) + (b - a);
    if a != b {
      assert b - a != {};
    }
  }

  /** The loop over the threads of one process. */
  method Children(table: ProcTable, ghost pid: Pid, parent: Pid, found0: set<Pid>, pending0: seq<Pid>)
    returns (found: set<Pid>, pending: seq<Pid>)
    requires parent in table && (parent == pid || parent in found0)
    requires Searching(ChildGraph(table), pid, found0, pending0 + [parent])
    ensures Searching(ChildGraph(table), pid, found, pending + [parent])
    ensures Successors(ChildGraph(table), parent) <= found
    ensures found0 <= found && (found == found0 ==> pending == pending0)
  {
    hide Searching, Union;
    ghost var g := ChildGraph(table);
    found, pending := found0, pending0;
    var t := 0;
    assert Union(table[parent][..t]) == {} by { UnionOfNone(table[parent][..t]); }
    while t < |table[parent]|
      invariant 0 <= t <= |table[parent]|
      invariant found0 <= found && (found == found0 ==> pending == pending0)
      invariant Searching(g, pid, found, pending + [parent])
      invariant Union(table[parent][..t]) <= found
    {
      var children := table[parent][t];
      UnionSnoc(table[parent], t);
      UnionBounds(table[parent], t + 1);
      var added := Listed(children - found);
      SearchTakes(g, pid, found, pending, parent, children, added);
      assert children - found == {} ==> found + children == found && added == [];
      pending := pending + added;
      found := found + children;
      t := t + 1;
    }
    assert table[parent][..t] == table[parent];
  }

  lemma UnionOfNone(lists: seq<set<Pid>>)
    requires lists == []
    ensures Union(lists) == {}
  {
  }

  lemma UnionSnoc(lists: seq<set<Pid>>, n: nat)
    requires n < |lists|
    ensures Union(lists[..n + 1]) == Union(lists[..n]) + lists[n]
  {
    assert lists[..n + 1][..n] == lists[..n];
  }

  // ---------------------------------------------------------------- the kernel's process table

  /** A family member: its parent, its age, and its status once it has exited and waits to be reaped. */
  datatype Process = Process(parent: Pid, born: nat, zombie: Option<int>)

  /** `used` are all identifiers ever given out; none is reused. */
  datatype Kernel = Kernel(family: map<Pid, Process>, used: set<Pid>, clock: nat, leaderStatus: Option<int>)

  /** What the environment may do at any moment. */
  datatype Event =
    | Fork(parent: Pid, child: Pid)
    | Exit(pid: Pid, status: int, heir: Pid)  // the children pass to `heir`, the nearest subreaper above
    | ReapedByParent(pid: Pid)

  datatype Setting = Setting(owner: Pid, leader: Pid)

  predicate IsAlive(k: Kernel, p: Pid) {
    p in k.family && k.family[p].zombie.None?
  }

  predicate Possible(s: Setting, k: Kernel, e: Event) {
    match e
    case Fork(parent, child) => IsAlive(k, parent) && child !in k.used
    case Exit(pid, _, heir) =>
      IsAlive(k, pid) && (heir == s.owner || (IsAlive(k, heir) && k.family[heir].born < k.family[pid].born))
    case ReapedByParent(pid) => pid in k.family && k.family[pid].zombie.Some? && k.family[pid].parent != s.owner
  }

  /** One event; an impossible one does not happen. */
  function After(s: Setting, k: Kernel, e: Event): Kernel {
    if !Possible(s, k, e) then k else
    match e
    case Fork(parent, child) =>
      Kernel(k.family[child := Process(parent, k.clock, None)], k.used + {child}, k.clock + 1, k.leaderStatus)
    case Exit(pid, status, heir) =>
      k.(family := map p | p in k.family ::
                     if p == pid then k.family[p].(zombie := Some(status))
                     else if k.family[p].parent == pid then k.family[p].(parent := heir)
                     else k.family[p],
         leaderStatus := if pid == s.leader then Some(status) else k.leaderStatus)
    case ReapedByParent(pid) => k.(family := k.family - {pid})
  }

  function AfterAll(s: Setting, k: Kernel, events: seq<Event>): Kernel {
    if events == [] then k else After(s, AfterAll(s, k, events[..|events| - 1]), events[|events| - 1])
  }

  /** Every parent is the owner or an older living member, and the leader is the owner's own child. */
  ghost predicate KernelOk(s: Setting, k: Kernel) {
    && s.owner !in k.family && s.owner in k.used && s.leader in k.used && k.family.Keys <= k.used
    && (forall p :: p in k.family ==> k.family[p].born < k.clock)
    && (forall p :: p in k.family && k.family[p].parent != s.owner ==>
          IsAlive(k, k.family[p].parent) && k.family[k.family[p].parent].born < k.family[p].born)
    && (s.leader in k.family ==> k.family[s.leader].parent == s.owner && k.family[s.leader].zombie == k.leaderStatus)
    && (s.leader !in k.family ==> k.leaderStatus.Some?)
  }

  lemma ExitKeeps(s: Setting, k: Kernel, e: Event)
    requires KernelOk(s, k) && e.Exit? && Possible(s, k, e)
    ensures KernelOk(s, After(s, k, e))
  {
    var v := After(s, k, e);
    assert v.family.Keys == k.family.Keys;
    forall p | p in v.family && v.family[p].parent != s.owner
      ensures IsAlive(v, v.family[p].parent) && v.family[v.family[p].parent].born < v.family[p].born
    {
      assert k.family[p].parent == v.family[p].parent || k.family[p].parent == e.pid;
    }
  }

  lemma EventKeeps(s: Setting, k: Kernel, e: Event)
    requires KernelOk(s, k)
    ensures KernelOk(s, After(s, k, e))
    ensures k.leaderStatus.Some? ==> After(s, k, e).leaderStatus == k.leaderStatus
    ensures s.leader in After(s, k, e).family <==> s.leader in k.family
  {
    if e.Exit? && Possible(s, k, e) {
      ExitKeeps(s, k, e);
    }
  }

  lemma {:induction false} EventsKeep(s: Setting, k: Kernel, events: seq<Event>)
    requires KernelOk(s, k)
    ensures KernelOk(s, AfterAll(s, k, events))
    ensures k.leaderStatus.Some? ==> AfterAll(s, k, events).leaderStatus == k.leaderStatus
    ensures s.leader in AfterAll(s, k, events).family <==> s.leader in k.family
    decreases |events|
  {
    hide KernelOk, After;
    if events != [] {
      EventsKeep(s, k, events[..|events| - 1]);
      EventKeeps(s, AfterAll(s, k, events[..|events| - 1]), events[|events| - 1]);
    }
  }

  /** A fork adds a living child, an exit leaves a zombie and passes its children on, and a reaping removes
      the zombie; events happen one after the other. */
  lemma EventMeans(s: Setting, k: Kernel, e: Event, events: seq<Event>, p: Pid)
    requires KernelOk(s, k) && Possible(s, k, e)
    ensures AfterAll(s, k, []) == k
    ensures AfterAll(s, k, events + [e]) == After(s, AfterAll(s, k, events), e)
    ensures var v := After(s, k, e);
            && (e.Fork? ==>
                  && v.family.Keys == k.family.Keys + {e.child} && e.child !in k.family
                  && IsAlive(v, e.child) && v.family[e.child].parent == e.parent
                  && (p in k.family ==> v.family[p] == k.family[p]))
            && (e.Exit? ==>
                  && v.family.Keys == k.family.Keys && v.family[e.pid].zombie == Some(e.status)
                  && (p in k.family && p != e.pid ==>
                        && v.family[p].zombie == k.family[p].zombie
                        && v.family[p].parent == if k.family[p].parent == e.pid then e.heir else k.family[p].parent))
            && (e.ReapedByParent? ==>
                  v.family.Keys == k.family.Keys - {e.pid} && (p in v.family ==> v.family[p] == k.family[p]))
  {
    assert (events + [e])[..|events|] == events;
  }

  predicate IsOwnChild(s: Setting, k: Kernel, p: Pid) {
    p in k.family && k.family[p].parent == s.owner
  }

  /** While a member is left, the owner has a child: the oldest member. */
  lemma FamilyHasOwnChild(s: Setting, k: Kernel, p: Pid) returns (child: Pid)
    requires KernelOk(s, k) && p in k.family
    ensures IsOwnChild(s, k, child)
    decreases k.family[p].born
  {
    if k.family[p].parent == s.owner {
      child := p;
    } else {
      child := FamilyHasOwnChild(s, k, k.family[p].parent);
    }
  }

  /** The process table as `_descendants` sees it. */
  function TableOf(s: Setting, k: Kernel): ProcTable {
    map p | p in k.family.Keys + {s.owner} :: [set c | c in k.family && k.family[c].parent == p]
  }

  lemma TableEdges(s: Setting, k: Kernel, p: Pid)
    ensures Successors(ChildGraph(TableOf(s, k)), p)
         == if p in k.family.Keys + {s.owner} then set c | c in k.family && k.family[c].parent == p else {}
  {
    if p in k.family.Keys + {s.owner} {
      var list := [set c | c in k.family && k.family[c].parent == p];
      assert list[..0] == [];
      assert Union(list) == list[0];
    }
  }

  /** The descendants of the owner are exactly the members of the family. */
  lemma FamilyIsDescendants(s: Setting, k: Kernel, p: Pid)
    requires KernelOk(s, k)
    ensures Reaches(ChildGraph(TableOf(s, k)), s.owner, p) <==> p in k.family
  {
    var g := ChildGraph(TableOf(s, k));
    if p in k.family {
      MemberReached(s, k, p);
    }
    forall x ensures Successors(g, x) <= k.family.Keys {
      TableEdges(s, k, x);
    }
    ClosedHoldsReachable(g, s.owner, k.family.Keys);
  }

  lemma MemberReached(s: Setting, k: Kernel, p: Pid)
    requires KernelOk(s, k) && p in k.family
    ensures Reaches(ChildGraph(TableOf(s, k)), s.owner, p)
    decreases k.family[p].born
  {
    var g, parent := ChildGraph(TableOf(s, k)), k.family[p].parent;
    TableEdges(s, k, parent);
    if parent == s.owner {
      EdgeReaches(g, s.owner, p);
    } else {
      MemberReached(s, k, parent);
      ReachesStep(g, s.owner, parent, p);
    }
  }

  /** When the owner has no child left, its whole family is gone. */
  lemma NobodyLeft(s: Setting, k: Kernel)
    requires KernelOk(s, k) && forall p :: !IsOwnChild(s, k, p)
    ensures k.family == map[]
  {
    if k.family != map[] {
      var p :| p in k.family;
      var child := FamilyHasOwnChild(s, k, p);
      assert false;
    }
  }
}
