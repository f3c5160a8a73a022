/** config_repository.py `dependencies` and `affected_by`: the include closure. */
module Includes {
  import opened Collections
  import opened Reachability

  /** Resolved paths. */
  type Path = string

  /** The include targets of every readable YAML file, in the order they are written; other
      files, and missing ones, have no entry. */
  type Files = map<Path, seq<Path>>

  function Targets(files: Files): Graph<Path> {
    map p | p in files :: set i | 0 <= i < |files[p]| :: files[p][i]
  }

  /** What `visit` leaves behind: every newly visited file has its targets recorded and visited. */
  ghost predicate VisitedAll(files: Files, before: set<Path>, visited: set<Path>, dependencies: set<Path>) {
    forall p :: p in visited - before ==> Successors(Targets(files), p) <= dependencies * visited
  }

  lemma SameVisited(files: Files, visited: set<Path>, dependencies: set<Path>)
    ensures VisitedAll(files, visited, visited, dependencies)
  {
  }

  lemma VisitedMore(files: Files, first: set<Path>, before: set<Path>, known: set<Path>,
      visited: set<Path>, dependencies: set<Path>)
    requires before <= visited && known <= dependencies
    requires VisitedAll(files, first, before, known) && VisitedAll(files, before, visited, dependencies)
    ensures VisitedAll(files, first, visited, dependencies)
  {
  }

  lemma TargetsOf(files: Files, path: Path)
    requires path in files
    ensures forall p :: p in Successors(Targets(files), path) <==>
              exists i :: 0 <= i < |files[path]| && files[path][i] == p
  {
  }

  class DependencyScan {
    const files: Files
    var dependencies: set<Path>
    var visited: set<Path>

    constructor (files: Files)
      ensures this.files == files && dependencies == {} && visited == {}
    {
      this.files := files;
      dependencies, visited := {}, {};
    }

    /** The nested function `visit`. */
    method Visit(path: Path, ghost root: Path)
      requires path in Nodes(Targets(files)) + {root} && (path == root || Reaches(Targets(files), root, path))
      modifies this
      ensures old(visited) <= visited <= old(visited) + Nodes(Targets(files)) + {root}
      ensures old(dependencies) <= dependencies && path in visited
      ensures VisitedAll(files, old(visited), visited, dependencies)
      ensures forall p :: p in dependencies - old(dependencies) ==> p in visited && Reaches(Targets(files), root, p)
      decreases |Nodes(Targets(files)) + {root} - visited|, 0
    {
      if path in visited {
        return;
      }
      ghost var room := Nodes(Targets(files)) + {root} - visited;
      visited := visited + {path};
      assert Nodes(Targets(files)) + {root} - visited == room - {path};
      if path !in files {
        return;
      }
      VisitTargets(path, root);
    }

    /** The loop over the include targets of one file. */
    method VisitTargets(path: Path, ghost root: Path)
      requires path in files && path in visited
      requires path == root || Reaches(Targets(files), root, path)
      modifies this
      ensures old(visited) <= visited <= old(visited) + Nodes(Targets(files)) + {root}
      ensures old(dependencies) <= dependencies
      ensures Successors(Targets(files), path) <= dependencies * visited
      ensures VisitedAll(files, old(visited), visited, dependencies)
      ensures forall p :: p in dependencies - old(dependencies) ==> p in visited && Reaches(Targets(files), root, p)
      decreases |Nodes(Targets(files)) + {root} - visited|, 1
    {
      hide Nodes, Reaches, Targets, Successors, VisitedAll;
      ghost var all := Nodes(Targets(files)) + {root};
      SameVisited(files, visited, dependencies);
      var i := 0;
      while i < |files[path]|
        invariant 0 <= i <= |files[path]|
        invariant old(visited) <= visited <= old(visited) + all
        invariant old(dependencies) <= dependencies
        invariant forall k :: 0 <= k < i ==> files[path][k] in dependencies && files[path][k] in visited
        invariant VisitedAll(files, old(visited), visited, dependencies)
        invariant forall p :: p in dependencies - old(dependencies) ==> p in visited && Reaches(Targets(files), root, p)
      {
        var included := files[path][i];
        TargetsOf(files, path);
        RootReaches(Targets(files), root, path, included);
        ghost var before, known := visited, dependencies;
        dependencies := dependencies + {included};
        SubsetSize(all - visited, all - old(visited));
        Visit(included, root);
        VisitedMore(files, old(visited), before, known, visited, dependencies);
        i := i + 1;
      }
      TargetsOf(files, path);
    }
  }

  /** `dependencies`: exactly the files reachable by one or more includes, cycles and missing
      targets included. */
  method Dependencies(files: Files, root: Path) returns (result: set<Path>)
    ensures forall p :: p in result <==> Reaches(Targets(files), root, p)
  {
    var scan := new DependencyScan(files);
    scan.Visit(root, root);
    result := scan.dependencies;
    var g := Targets(files);
    assert Successors(g, root) <= result;
    forall y | y in result ensures Successors(g, y) <= result {
    }
    ClosedHoldsReachable(g, root, result);
  }

  /** `affected_by`: the changed file and exactly the listed files that include it, directly or not. */
  method AffectedBy(files: Files, listed: set<string>, resolve: string -> Path, relative: string)
    returns (affected: set<string>)
    ensures forall c :: c in affected <==>
              c == relative || (c in listed && Reaches(Targets(files), resolve(c), resolve(relative)))
  {
    var changed := resolve(relative);
    affected := {relative};
    var rest := listed;
    while rest != {}
      invariant rest <= listed
      invariant forall c :: c in affected <==>
                  c == relative || (c in listed - rest && Reaches(Targets(files), resolve(c), changed))
      decreases rest
    {
      var candidate :| candidate in rest;
      if candidate != relative {
        var deps := Dependencies(files, resolve(candidate));
        if changed in deps {
          affected := affected + {candidate};
        }
      }
      rest := rest - {candidate};
    }
  }
}
