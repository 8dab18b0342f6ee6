/** _reachable: the import closure of the entry points, by a worklist that may hold duplicates. */
module ImportGraph {
  type Module = string
  type Graph = map<Module, set<Module>>

  function Imports(graph: Graph, m: Module): set<Module> {
    if m in graph then graph[m] else {}
  }

  lemma ClosedImports(graph: Graph, s: set<Module>)
    requires Closed(graph, s)
    ensures forall m | m in s && m in graph :: graph[m] <= s
  {
    forall m | m in s && m in graph ensures graph[m] <= s { assert Imports(graph, m) <= s; }
  }

  /** A chain of imports from one module to another. */
  ghost predicate Path(graph: Graph, path: seq<Module>) {
    path != [] && forall k | 0 <= k < |path| - 1 :: path[k + 1] in Imports(graph, path[k])
  }

  ghost predicate Reachable(graph: Graph, entries: seq<Module>, m: Module) {
    exists path: seq<Module> | Path(graph, path) :: path[0] in entries && path[|path| - 1] == m
  }

  ghost predicate Closed(graph: Graph, s: set<Module>) {
    forall m | m in s :: Imports(graph, m) <= s
  }

  /** Everything the worklist can ever meet. */
  function Universe(graph: Graph, entries: seq<Module>): set<Module> {
    (set m | m in entries) + (set n, m | n in graph && m in graph[n] :: m)
  }

  ghost predicate Lists(order: set<Module> -> seq<Module>) {
    forall s, m :: m in order(s) <==> m in s
  }

  lemma ReachStep(graph: Graph, entries: seq<Module>, m: Module, next: Module)
    requires Reachable(graph, entries, m) && next in Imports(graph, m)
    ensures Reachable(graph, entries, next)
  {
    var path: seq<Module> :| Path(graph, path) && path[0] in entries && path[|path| - 1] == m;
    var longer := path + [next];
    forall k | 0 <= k < |longer| - 1 ensures longer[k + 1] in Imports(graph, longer[k]) {}
    assert Path(graph, longer) && longer[0] in entries && longer[|longer| - 1] == next;
  }

  lemma ReachEntry(graph: Graph, entries: seq<Module>, m: Module)
    requires m in entries
    ensures Reachable(graph, entries, m)
  {
    assert Path(graph, [m]) && [m][0] in entries;
  }

  /** Whatever contains the entries and is closed contains everything on a chain from an entry. */
  lemma {:induction false} ClosedHoldsPath(graph: Graph, s: set<Module>, path: seq<Module>)
    requires Closed(graph, s) && Path(graph, path) && path[0] in s
    ensures path[|path| - 1] in s
  {
    if |path| > 1 {
      assert path[0 + 1] in Imports(graph, path[0]);
      var rest := path[1..];
      forall k | 0 <= k < |rest| - 1 ensures rest[k + 1] in Imports(graph, rest[k]) {
        assert rest[k] == path[k + 1] && rest[k + 1] == path[k + 2];
      }
      ClosedHoldsPath(graph, s, rest);
    }
  }

  lemma ClosedHoldsReachable(graph: Graph, entries: seq<Module>, s: set<Module>)
    requires Closed(graph, s) && forall m | m in entries :: m in s
    ensures forall m | Reachable(graph, entries, m) :: m in s
  {
    forall m | Reachable(graph, entries, m) ensures m in s {
      var path: seq<Module> :| Path(graph, path) && path[0] in entries && path[|path| - 1] == m;
      ClosedHoldsPath(graph, s, path);
    }
  }

  /** What the loop keeps: everything met is reachable, and what is still missing from the closure is queued. */
  ghost predicate Work(graph: Graph, entries: seq<Module>, seen: set<Module>, queue: seq<Module>) {
    && (forall m | m in seen || m in queue :: Reachable(graph, entries, m) && m in Universe(graph, entries))
    && (forall m | m in entries :: m in seen || m in queue)
    && (forall m, n | m in seen && n in Imports(graph, m) :: n in seen || n in queue)
  }

  lemma WorkStarts(graph: Graph, entries: seq<Module>)
    ensures Work(graph, entries, {}, entries)
  {
    hide Reachable;
    forall m | m in entries ensures Reachable(graph, entries, m) { ReachEntry(graph, entries, m); }
  }

  lemma QueueSplit(queue: seq<Module>, m: Module)
    requires queue != []
    ensures m in queue <==> m == queue[0] || m in queue[1..]
  {}

  lemma WorkSkips(graph: Graph, entries: seq<Module>, seen: set<Module>, queue: seq<Module>)
    requires queue != [] && Work(graph, entries, seen, queue) && queue[0] in seen
    ensures Work(graph, entries, seen, queue[1..])
  {
    hide Reachable, Universe, Imports;
    forall m ensures m in queue <==> m == queue[0] || m in queue[1..] { QueueSplit(queue, m); }
  }

  lemma WorkVisits(graph: Graph, entries: seq<Module>, seen: set<Module>, queue: seq<Module>, more: seq<Module>)
    requires queue != [] && Work(graph, entries, seen, queue)
    requires forall m :: m in more <==> m in Imports(graph, queue[0]) - seen
    ensures Work(graph, entries, seen + {queue[0]}, queue[1..] + more)
  {
    hide Reachable;
    var current := queue[0];
    var rest := queue[1..] + more;
    forall m ensures m in queue <==> m == current || m in queue[1..] { QueueSplit(queue, m); }
    forall m ensures m in rest <==> m in queue[1..] || m in Imports(graph, current) - seen {}
    forall m | m in Imports(graph, current) ensures Reachable(graph, entries, m) && m in Universe(graph, entries) {
      ReachStep(graph, entries, current, m);
    }
    hide Universe, Imports;
  }

  /** The loop over the deque; `order` is the order in which a set is appended. */
  method Reach(graph: Graph, entries: seq<Module>, order: set<Module> -> seq<Module>) returns (seen: set<Module>)
    requires Lists(order)
    ensures forall m :: m in seen <==> Reachable(graph, entries, m)
    ensures Closed(graph, seen) && forall m | m in entries :: m in seen
    ensures forall m | m in seen && m in graph :: graph[m] <= seen
    ensures forall s: set<Module> | Closed(graph, s) && (forall m | m in entries :: m in s) :: seen <= s
  {
    hide Reachable, Universe, Imports;
    seen := {};
    var queue := entries;
    ghost var universe := Universe(graph, entries);
    WorkStarts(graph, entries);
    while queue != []
      invariant Work(graph, entries, seen, queue)
      decreases |universe - seen|, |queue|
    {
      var current := queue[0];
      if current in seen {
        WorkSkips(graph, entries, seen, queue);
        queue := queue[1..];
      } else {
        var more := order(Imports(graph, current) - seen);
        WorkVisits(graph, entries, seen, queue, more);
        Shrinks(universe, seen, current);
        seen := seen + {current};
        queue := queue[1..] + more;
      }
    }
    ClosedHoldsReachable(graph, entries, seen);
    ClosedImports(graph, seen);
    forall s: set<Module> | Closed(graph, s) && (forall m | m in entries :: m in s) ensures seen <= s {
      ClosedHoldsReachable(graph, entries, s);
    }
  }

  lemma Shrinks(universe: set<Module>, seen: set<Module>, m: Module)
    requires m in universe && m !in seen
    ensures |universe - (seen + {m})| < |universe - seen|
  {
    assert universe - seen == (universe - (seen + {m})) + {m};
  }
}
