/**
  Two worklist searches over named nodes: the forbidden-dependency check of the platform crates and
  the import graph of the production web sources.
 */
module Worklists {
  import opened Results

  /** A nonempty chain of present, nonempty names, each linking to the next. */
  ghost predicate IsWalk(present: set<string>, next: string -> seq<string>, path: seq<string>)
  {
    && |path| > 0
    && (forall i | 0 <= i < |path| :: path[i] != "" && path[i] in present)
    && (forall i | 0 < i < |path| :: path[i] in next(path[i - 1]))
  }

  ghost predicate Reaches(present: set<string>, next: string -> seq<string>, starts: seq<string>, node: string)
  {
    exists path :: IsWalk(present, next, path) && path[0] in starts && path[|path| - 1] == node
  }

  lemma ReachesStart(present: set<string>, next: string -> seq<string>, starts: seq<string>, node: string)
    requires node in starts && node != "" && node in present
    ensures Reaches(present, next, starts, node)
  {
    assert IsWalk(present, next, [node]);
  }

  lemma ReachesNext(present: set<string>, next: string -> seq<string>, starts: seq<string>, node: string, link: string)
    requires Reaches(present, next, starts, node) && link in next(node) && link != "" && link in present
    ensures Reaches(present, next, starts, link)
  {
    var path :| IsWalk(present, next, path) && path[0] in starts && path[|path| - 1] == node;
    assert IsWalk(present, next, path + [link]);
  }

  /** What is still to be found is on the list: the invariant of both loops. */
  ghost predicate IsSearch(present: set<string>, next: string -> seq<string>, starts: seq<string>,
                           visited: set<string>, pending: seq<string>)
  {
    && (forall node | node in visited :: node in present && Reaches(present, next, starts, node))
    && (forall node | node in pending :: node != "" && node in present ==> Reaches(present, next, starts, node))
    && (forall node | node in starts :: IsCovered(present, visited, pending, node))
    && (forall node, link | node in visited && link in next(node) :: IsCovered(present, visited, pending, link))
  }

  ghost predicate IsCovered(present: set<string>, visited: set<string>, pending: seq<string>, node: string)
  {
    node == "" || node !in present || node in visited || node in pending
  }

  lemma {:induction false} WalkVisited(present: set<string>, next: string -> seq<string>, starts: seq<string>,
                                       visited: set<string>, path: seq<string>, i: nat)
    requires IsSearch(present, next, starts, visited, []) && IsWalk(present, next, path) && path[0] in starts && i < |path|
    ensures path[i] in visited
    decreases i
  {
    hide Reaches;
    if i > 0 {
      WalkVisited(present, next, starts, visited, path, i - 1);
    }
    assert IsCovered(present, visited, [], path[i]);
  }

  /** When the list is empty, exactly the reachable names were visited. */
  lemma SearchDone(present: set<string>, next: string -> seq<string>, starts: seq<string>, visited: set<string>, node: string)
    requires IsSearch(present, next, starts, visited, [])
    ensures node in visited <==> Reaches(present, next, starts, node)
  {
    if Reaches(present, next, starts, node) {
      var path :| IsWalk(present, next, path) && path[0] in starts && path[|path| - 1] == node;
      WalkVisited(present, next, starts, visited, path, |path| - 1);
    }
  }

  /** Dropping an entry that is empty, absent or already visited. */
  lemma SearchSkip(present: set<string>, next: string -> seq<string>, starts: seq<string>, visited: set<string>, pending: seq<string>)
    requires pending != [] && IsSearch(present, next, starts, visited, pending)
    requires var last := pending[|pending| - 1]; last == "" || last in visited || last !in present
    ensures IsSearch(present, next, starts, visited, pending[..|pending| - 1])
  {
    hide Reaches;
    var last, rest := pending[|pending| - 1], pending[..|pending| - 1];
    assert pending == rest + [last];
    forall node | IsCovered(present, visited, pending, node) ensures IsCovered(present, visited, rest, node) {
    }
  }

  /** Visiting an entry and putting all its present links on the list. */
  lemma SearchVisit(present: set<string>, next: string -> seq<string>, starts: seq<string>, visited: set<string>,
                    pending: seq<string>, added: seq<string>)
    requires pending != [] && IsSearch(present, next, starts, visited, pending)
    requires var last := pending[|pending| - 1];
             && last != "" && last in present
             && (forall link | link in added :: link in next(last))
             && (forall link | link in next(last) && link in present :: link in added)
    ensures var last := pending[|pending| - 1];
            IsSearch(present, next, starts, visited + {last}, pending[..|pending| - 1] + added)
  {
    hide Reaches;
    var last, rest := pending[|pending| - 1], pending[..|pending| - 1];
    assert pending == rest + [last];
    assert last in pending;
    var now, left := visited + {last}, rest + added;
    forall node | node in left && node != "" && node in present ensures Reaches(present, next, starts, node) {
      if node in added {
        ReachesNext(present, next, starts, last, node);
      } else {
        assert node in pending;
      }
    }
    forall node | IsCovered(present, visited, pending, node) ensures IsCovered(present, now, left, node) {
    }
    forall node, link | node in now && link in next(node) ensures IsCovered(present, now, left, link) {
      if node != last {
        assert IsCovered(present, visited, pending, link);
      }
    }
  }

  // ---------------------------------------------------------------- dependency paths

  function Links(graph: map<string, seq<string>>): string -> seq<string>
  {
    name => if name in graph then graph[name] else []
  }

  /** A nonempty path of dependencies leads from one crate to the other. */
  ghost predicate DependsOn(graph: map<string, seq<string>>, origin: string, target: string)
  {
    exists node :: Reaches(graph.Keys, Links(graph), [origin], node) && target in Links(graph)(node)
  }

  /** The links of one crate, up to the target. */
  method PushLinks(graph: map<string, seq<string>>, current: string, target: string) returns (found: bool, added: seq<string>)
    ensures found <==> target in Links(graph)(current)
    ensures !found ==> AreLinks(graph, current, added)
  {
    added := [];
    var links := Links(graph)(current);
    for i := 0 to |links|
      invariant target !in links[..i]
      invariant forall link :: link in added <==> link in links[..i] && link in graph
    {
      var dependency := links[i];
      assert links[..i + 1] == links[..i] + [dependency];
      if dependency == target {
        return true, added;
      }
      if dependency in graph {
        added := added + [dependency];
      }
    }
    assert links[..|links|] == links;
    return false, added;
  }

  /** The loop's invariant; a start outside the graph is visited without being present. */
  ghost predicate IsDependencySearch(graph: map<string, seq<string>>, origin: string, target: string,
                                     visited: set<string>, pending: seq<string>)
  {
    && IsSearch(graph.Keys, Links(graph), [origin], visited * graph.Keys, pending)
    && (forall node | node in pending :: node == origin || node in graph)
    && (forall node | node in visited :: target !in Links(graph)(node))
  }

  lemma DependencySkip(graph: map<string, seq<string>>, origin: string, target: string, visited: set<string>, pending: seq<string>)
    requires pending != [] && IsDependencySearch(graph, origin, target, visited, pending)
    requires var last := pending[|pending| - 1]; last == "" || last in visited
    ensures IsDependencySearch(graph, origin, target, visited, pending[..|pending| - 1])
  {
    hide IsSearch, Links;
    SearchSkip(graph.Keys, Links(graph), [origin], visited * graph.Keys, pending);
  }

  lemma NoneAdded(added: seq<string>)
    ensures (forall link :: link !in added) ==> added == []
  {
    assert added != [] ==> added[0] in added;
  }

  ghost predicate AreLinks(graph: map<string, seq<string>>, node: string, added: seq<string>)
  {
    forall link :: link in added <==> link in Links(graph)(node) && link in graph
  }

  lemma DependencyVisit(graph: map<string, seq<string>>, origin: string, target: string, visited: set<string>,
                        pending: seq<string>, added: seq<string>)
    requires pending != [] && IsDependencySearch(graph, origin, target, visited, pending)
    requires var last := pending[|pending| - 1];
             last != "" && last !in visited && target !in Links(graph)(last) && AreLinks(graph, last, added)
    ensures var last := pending[|pending| - 1];
            && last in graph.Keys + {origin}
            && IsDependencySearch(graph, origin, target, visited + {last}, pending[..|pending| - 1] + added)
  {
    var last, rest := pending[|pending| - 1], pending[..|pending| - 1];
    assert last in pending && forall node | node in rest :: node in pending;
    AbsentLinks(graph, last);
    hide IsSearch, Links;
    if last in graph {
      SearchVisit(graph.Keys, Links(graph), [origin], visited * graph.Keys, pending, added);
      assert (visited + {last}) * graph.Keys == visited * graph.Keys + {last};
    } else {
      SearchSkip(graph.Keys, Links(graph), [origin], visited * graph.Keys, pending);
      assert (visited + {last}) * graph.Keys == visited * graph.Keys;
      NoneAdded(added);
      assert rest + added == rest;
    }
  }

  method HasDependencyPath(graph: map<string, seq<string>>, origin: string, target: string) returns (found: bool)
    ensures found <==> DependsOn(graph, origin, target)
  {
    hide *;
    var pending, visited: set<string> := [origin], {};
    DependencyStart(graph, origin, target);
    while |pending| > 0
      invariant IsDependencySearch(graph, origin, target, visited, pending)
      decreases |graph.Keys + {origin} - visited|, |pending|
    {
      var current, rest := pending[|pending| - 1], pending[..|pending| - 1];
      if current == "" || current in visited {
        DependencySkip(graph, origin, target, visited, pending);
        pending := rest;
        continue;
      }
      var added;
      found, added := PushLinks(graph, current, target);
      if found {
        FoundTarget(graph, origin, target, visited, pending);
        return true;
      }
      DependencyVisit(graph, origin, target, visited, pending, added);
      Shrinks(graph.Keys + {origin}, visited, current);
      visited, pending := visited + {current}, rest + added;
    }
    NotFound(graph, origin, target, visited);
    return false;
  }

  lemma Shrinks(all: set<string>, visited: set<string>, node: string)
    requires node in all && node !in visited
    ensures |all - (visited + {node})| < |all - visited|
  {
    assert all - visited == (all - (visited + {node})) + {node};
  }

  lemma SearchStart(present: set<string>, next: string -> seq<string>, starts: seq<string>)
    ensures IsSearch(present, next, starts, {}, starts)
  {
    hide Reaches;
    forall node | node in starts && node != "" && node in present ensures Reaches(present, next, starts, node) {
      ReachesStart(present, next, starts, node);
    }
  }

  lemma AbsentLinks(graph: map<string, seq<string>>, name: string)
    ensures name !in graph ==> Links(graph)(name) == []
  {
  }

  lemma DependencyStart(graph: map<string, seq<string>>, origin: string, target: string)
    ensures IsDependencySearch(graph, origin, target, {}, [origin])
  {
    hide IsSearch;
    SearchStart(graph.Keys, Links(graph), [origin]);
    assert {} * graph.Keys == {};
  }

  lemma FoundTarget(graph: map<string, seq<string>>, origin: string, target: string, visited: set<string>, pending: seq<string>)
    requires pending != [] && IsDependencySearch(graph, origin, target, visited, pending)
    requires var last := pending[|pending| - 1]; last != "" && target in Links(graph)(last)
    ensures DependsOn(graph, origin, target)
  {
    AbsentLinks(graph, pending[|pending| - 1]);
    hide Reaches, Links;
    assert pending[|pending| - 1] in pending;
  }

  lemma NotFound(graph: map<string, seq<string>>, origin: string, target: string, visited: set<string>)
    requires IsDependencySearch(graph, origin, target, visited, [])
    ensures !DependsOn(graph, origin, target)
  {
    hide Reaches, Links, IsSearch;
    forall node | Reaches(graph.Keys, Links(graph), [origin], node) ensures target !in Links(graph)(node) {
      SearchDone(graph.Keys, Links(graph), [origin], visited * graph.Keys, node);
    }
  }

  // ---------------------------------------------------------------- production web sources

  /** Where the local imports of a source lead, for the abstract extraction and resolution. */
  function Imports(sources: map<string, string>, resolve: (string, string) -> seq<Option<string>>): string -> seq<string>
  {
    path => if path in sources then Resolved(resolve(path, sources[path])) else []
  }

  function Resolved(targets: seq<Option<string>>): seq<string>
  {
    if targets == [] then []
    else
      var rest := Resolved(targets[..|targets| - 1]);
      match targets[|targets| - 1]
      case None => rest
      case Some(target) => rest + [target]
  }

  /** The visited part of the sources, unchanged, and the state of the search. */
  ghost predicate IsImportSearch(sources: map<string, string>, resolve: (string, string) -> seq<Option<string>>, entries: seq<string>,
                                 visited: map<string, string>, pending: seq<string>)
  {
    && IsSearch(sources.Keys, Imports(sources, resolve), entries, visited.Keys, pending)
    && forall path | path in visited :: path in sources && visited[path] == sources[path]
  }

  lemma ImportVisit(sources: map<string, string>, resolve: (string, string) -> seq<Option<string>>, entries: seq<string>,
                    visited: map<string, string>, pending: seq<string>)
    requires pending != [] && IsImportSearch(sources, resolve, entries, visited, pending)
    requires var last := pending[|pending| - 1]; last != "" && last in sources
    ensures var last := pending[|pending| - 1];
            IsImportSearch(sources, resolve, entries, visited[last := sources[last]],
                           pending[..|pending| - 1] + Resolved(resolve(last, sources[last])))
  {
    hide IsSearch, Resolved;
    var last := pending[|pending| - 1];
    SearchVisit(sources.Keys, Imports(sources, resolve), entries, visited.Keys, pending, Imports(sources, resolve)(last));
    assert visited[last := sources[last]].Keys == visited.Keys + {last};
  }

  lemma ImportSkip(sources: map<string, string>, resolve: (string, string) -> seq<Option<string>>, entries: seq<string>,
                   visited: map<string, string>, pending: seq<string>)
    requires pending != [] && IsImportSearch(sources, resolve, entries, visited, pending)
    requires var last := pending[|pending| - 1]; last == "" || last in visited || last !in sources
    ensures IsImportSearch(sources, resolve, entries, visited, pending[..|pending| - 1])
  {
    hide IsSearch, Imports;
    SearchSkip(sources.Keys, Imports(sources, resolve), entries, visited.Keys, pending);
  }

  lemma ImportsStart(sources: map<string, string>, resolve: (string, string) -> seq<Option<string>>, entries: seq<string>)
    ensures IsImportSearch(sources, resolve, entries, map[], entries)
  {
    hide IsSearch, Imports;
    SearchStart(sources.Keys, Imports(sources, resolve), entries);
    var none: map<string, string> := map[];
    assert none.Keys == {};
  }

  lemma ImportsDone(sources: map<string, string>, resolve: (string, string) -> seq<Option<string>>, entries: seq<string>,
                    visited: map<string, string>)
    requires IsImportSearch(sources, resolve, entries, visited, [])
    ensures forall path :: path in visited <==> Reaches(sources.Keys, Imports(sources, resolve), entries, path)
    ensures forall path | path in visited :: path in sources && visited[path] == sources[path]
  {
    hide IsSearch, Reaches, Imports;
    forall path ensures path in visited <==> Reaches(sources.Keys, Imports(sources, resolve), entries, path) {
      SearchDone(sources.Keys, Imports(sources, resolve), entries, visited.Keys, path);
    }
  }

  /** Exactly the present sources that imports reach from the entries, with their texts. */
  method ProductionWebGraph(sources: map<string, string>, entries: seq<string>,
                            resolve: (string, string) -> seq<Option<string>>) returns (visited: map<string, string>)
    ensures forall path :: path in visited <==> Reaches(sources.Keys, Imports(sources, resolve), entries, path)
    ensures forall path | path in visited :: path in sources && visited[path] == sources[path]
  {
    hide *;
    var pending := entries;
    visited := map[];
    ImportsStart(sources, resolve, entries);
    while |pending| > 0
      invariant IsImportSearch(sources, resolve, entries, visited, pending)
      decreases |sources.Keys - visited.Keys|, |pending|
    {
      var path, rest := pending[|pending| - 1], pending[..|pending| - 1];
      if path == "" || path in visited || path !in sources {
        ImportSkip(sources, resolve, entries, visited, pending);
        pending := rest;
        continue;
      }
      var source := sources[path];
      var added := PushTargets(resolve(path, source));
      ImportVisit(sources, resolve, entries, visited, pending);
      Shrinks(sources.Keys, visited.Keys, path);
      assert visited[path := source].Keys == visited.Keys + {path};
      visited, pending := visited[path := source], rest + added;
    }
    ImportsDone(sources, resolve, entries, visited);
  }

  method PushTargets(targets: seq<Option<string>>) returns (added: seq<string>)
    ensures added == Resolved(targets)
  {
    added := [];
    for i := 0 to |targets|
      invariant added == Resolved(targets[..i])
    {
      assert targets[..i + 1][..i] == targets[..i];
      if targets[i].Some? {
        added := added + [targets[i].value];
      }
    }
    assert targets[..|targets|] == targets;
  }
}
