/** Reachability in finite graphs: the meaning of the closures computed by process_owner.py and
    config_repository.py, and of the reference chains in variables.py. */
module Reachability {

  /** The direct successors of each node; a node without an entry has none. */
  type Graph<T> = map<T, set<T>>

  function Successors<T>(g: Graph<T>, x: T): set<T> {
    if x in g then g[x] else {}
  }

  ghost predicate IsPath<T>(g: Graph<T>, path: seq<T>) {
    forall i :: 0 <= i < |path| - 1 ==> path[i + 1] in Successors(g, path[i])
  }

  /** `y` can be reached from `x` by one or more edges. */
  ghost predicate Reaches<T(!new)>(g: Graph<T>, x: T, y: T) {
    exists path: seq<T> :: |path| >= 2 && path[0] == x && path[|path| - 1] == y && IsPath(g, path)
  }

  /** Every node that the graph mentions. */
  ghost function Nodes<T>(g: Graph<T>): set<T> {
    g.Keys + set x, y | x in g && y in g[x] :: y
  }

  lemma EdgeReaches<T(!new)>(g: Graph<T>, x: T, y: T)
    requires y in Successors(g, x)
    ensures Reaches(g, x, y)
  {
    var path := [x, y];
    assert IsPath(g, path);
  }

  lemma ReachesBySuccessor<T(!new)>(g: Graph<T>, x: T, y: T)
    requires Reaches(g, x, y)
    ensures Successors(g, x) != {}
  {
    var path :| |path| >= 2 && path[0] == x && path[|path| - 1] == y && IsPath(g, path);
    assert path[0 + 1] in Successors(g, x);
  }

  lemma ReachesStep<T(!new)>(g: Graph<T>, x: T, y: T, z: T)
    requires Reaches(g, x, y) && z in Successors(g, y)
    ensures Reaches(g, x, z)
  {
    var path :| |path| >= 2 && path[0] == x && path[|path| - 1] == y && IsPath(g, path);
    var longer := path + [z];
    forall i | 0 <= i < |longer| - 1 ensures longer[i + 1] in Successors(g, longer[i]) {
      if i < |path| - 1 {
        assert path[i + 1] in Successors(g, path[i]);
      }
    }
    assert IsPath(g, longer) && longer[|longer| - 1] == z;
  }

  lemma ReachesFirst<T(!new)>(g: Graph<T>, x: T, y: T, z: T)
    requires y in Successors(g, x) && Reaches(g, y, z)
    ensures Reaches(g, x, z)
  {
    var path :| |path| >= 2 && path[0] == y && path[|path| - 1] == z && IsPath(g, path);
    var longer := [x] + path;
    forall i | 0 <= i < |longer| - 1 ensures longer[i + 1] in Successors(g, longer[i]) {
      if i > 0 {
        assert path[i] in Successors(g, path[i - 1]);
      }
    }
    assert IsPath(g, longer) && longer[|longer| - 1] == z;
  }

  lemma ReachesTransitive<T(!new)>(g: Graph<T>, x: T, y: T, z: T)
    requires Reaches(g, x, y) && Reaches(g, y, z)
    ensures Reaches(g, x, z)
  {
    var first :| |first| >= 2 && first[0] == x && first[|first| - 1] == y && IsPath(g, first);
    var rest :| |rest| >= 2 && rest[0] == y && rest[|rest| - 1] == z && IsPath(g, rest);
    var path := first + rest[1..];
    forall i | 0 <= i < |path| - 1 ensures path[i + 1] in Successors(g, path[i]) {
      if i < |first| - 1 {
        assert first[i + 1] in Successors(g, first[i]);
      } else {
        assert path[i] == rest[i - (|first| - 1)];
        assert rest[i - (|first| - 1) + 1] in Successors(g, rest[i - (|first| - 1)]);
      }
    }
    assert IsPath(g, path) && path[|path| - 1] == z;
  }

  /** A successor of the root, or of something it reaches, is reached. */
  lemma RootReaches<T(!new)>(g: Graph<T>, root: T, x: T, y: T)
    requires y in Successors(g, x) && (x == root || Reaches(g, root, x))
    ensures Reaches(g, root, y) && y in Nodes(g)
  {
    SuccessorsAreNodes(g, x);
    if x == root {
      EdgeReaches(g, root, y);
    } else {
      ReachesStep(g, root, x, y);
    }
  }

  /** A set that holds the successors of `x` and of its own members holds all that `x` reaches. */
  lemma ClosedHoldsReachable<T(!new)>(g: Graph<T>, x: T, s: set<T>)
    requires Successors(g, x) <= s && forall y :: y in s ==> Successors(g, y) <= s
    ensures forall y :: Reaches(g, x, y) ==> y in s
  {
    forall y | Reaches(g, x, y) ensures y in s {
      var path :| |path| >= 2 && path[0] == x && path[|path| - 1] == y && IsPath(g, path);
      PathStaysInside(g, path, s, |path| - 1);
    }
  }

  lemma {:induction false} PathStaysInside<T(!new)>(g: Graph<T>, path: seq<T>, s: set<T>, i: nat)
    requires IsPath(g, path) && 0 < i < |path|
    requires Successors(g, path[0]) <= s && forall y :: y in s ==> Successors(g, y) <= s
    ensures path[i] in s
    decreases i
  {
    assert path[i - 1 + 1] in Successors(g, path[i - 1]);
    if i > 1 {
      PathStaysInside(g, path, s, i - 1);
    }
  }

  lemma SuccessorsAreNodes<T(!new)>(g: Graph<T>, x: T)
    ensures Successors(g, x) <= Nodes(g)
  {
  }
}
