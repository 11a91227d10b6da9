/** Dependency graphs: walks, cycles, orders, and the two cycle searches of the repository. An edge
    counts only when its target is itself a node. */
module Graph {
  import opened Text

  type Graph<!Id(==)> = map<Id, seq<Id>>

  ghost predicate Closed<Id(!new)>(g: Graph<Id>) {
    forall n, d | n in g && d in g[n] :: d in g
  }

  ghost predicate Edge<Id>(g: Graph<Id>, a: Id, b: Id) {
    a in g && b in g && b in g[a]
  }

  /** A nonempty sequence of nodes, each leading to the next. */
  ghost predicate IsWalk<Id>(g: Graph<Id>, w: seq<Id>) {
    && w != []
    && (forall i | 0 <= i < |w| :: w[i] in g)
    && (forall i | 0 < i < |w| :: Edge(g, w[i - 1], w[i]))
  }

  ghost predicate IsCycle<Id>(g: Graph<Id>, w: seq<Id>) {
    IsWalk(g, w) && |w| >= 2 && w[0] == w[|w| - 1]
  }

  ghost predicate HasCycle<Id(!new)>(g: Graph<Id>) {
    exists w :: IsCycle(g, w)
  }

  ghost predicate Distinct<Id>(s: seq<Id>) {
    forall i, j | 0 <= i < j < |s| :: s[i] != s[j]
  }

  lemma {:induction false} SnocDistinct<Id>(s: seq<Id>, x: Id)
    ensures Distinct(s + [x]) <==> Distinct(s) && x !in s
  {
    var t := s + [x];
    assert forall i | 0 <= i < |s| :: t[i] == s[i];
    assert t[|s|] == x;
    if Distinct(t) {
      forall i, j | 0 <= i < j < |s| ensures s[i] != s[j] {
        assert t[i] != t[j];
      }
      forall i | 0 <= i < |s| ensures s[i] != x {
        assert t[i] != t[|s|];
      }
    }
  }

  function Elements<Id>(s: seq<Id>): set<Id> {
    set x | x in s
  }

  lemma {:induction false} DistinctFits<Id>(s: seq<Id>, nodes: set<Id>)
    requires Distinct(s) && forall i | 0 <= i < |s| :: s[i] in nodes
    ensures |s| <= |nodes|
  {
    if s != [] {
      var last := s[|s| - 1];
      DistinctFits(s[..|s| - 1], nodes - {last});
    }
  }

  /** A walk longer than the number of nodes it may use repeats a node. */
  lemma {:induction false} LongWalkRepeats<Id(!new)>(g: Graph<Id>, w: seq<Id>, nodes: set<Id>)
    requires IsWalk(g, w) && |w| > |nodes| && forall i | 0 <= i < |w| :: w[i] in nodes
    ensures HasCycle(g)
  {
    if Distinct(w) {
      DistinctFits(w, nodes);
    } else {
      var i, j :| 0 <= i < j < |w| && w[i] == w[j];
      var c := w[i..j + 1];
      assert IsCycle(g, c);
    }
  }

  /** Going round a cycle: walks of every length start on it. */
  lemma {:induction false} WalkAround<Id>(g: Graph<Id>, c: seq<Id>, k: nat, n: nat) returns (w: seq<Id>)
    requires IsCycle(g, c) && k < |c| - 1
    ensures IsWalk(g, w) && |w| == n + 1 && w[0] == c[k]
    decreases n
  {
    if n == 0 {
      w := [c[k]];
    } else {
      var next := if k + 1 == |c| - 1 then 0 else k + 1;
      var rest := WalkAround(g, c, next, n - 1);
      assert Edge(g, c[k], c[k + 1]) && c[k + 1] == rest[0];
      w := [c[k]] + rest;
    }
  }

  // ---------------------------------------------------------------------------------------------
  // Orders
  // ---------------------------------------------------------------------------------------------

  /** Every dependency of a listed node is listed before it. */
  ghost predicate Ordered<Id(!new)>(g: Graph<Id>, order: seq<Id>) {
    && Distinct(order)
    && (forall i | 0 <= i < |order| :: order[i] in g)
    && (forall i, d | 0 <= i < |order| && Edge(g, order[i], d) :: d in order[..i])
  }

  ghost predicate IsOrderOf<Id(!new)>(g: Graph<Id>, order: seq<Id>) {
    Ordered(g, order) && forall n | n in g :: n in order
  }

  lemma {:induction false} WalkDescends<Id(!new)>(g: Graph<Id>, order: seq<Id>, w: seq<Id>, i: nat, j: nat)
    requires Ordered(g, order) && IsWalk(g, w)
    requires i < |order| && w[0] == order[i] && j < |order| && w[|w| - 1] == order[j]
    ensures j + |w| - 1 <= i
    decreases |w|
  {
    if |w| > 1 {
      assert Edge(g, w[0], w[1]);
      assert w[1] in order[..i];
      var k :| 0 <= k < i && order[k] == w[1];
      WalkDescends(g, order, w[1..], k, j);
    }
  }

  lemma {:induction false} OrderedHasNoCycle<Id(!new)>(g: Graph<Id>, order: seq<Id>)
    requires IsOrderOf(g, order)
    ensures !HasCycle(g)
  {
    forall w ensures !IsCycle(g, w) {
      if IsCycle(g, w) {
        assert w[0] in order;
        var i :| 0 <= i < |order| && order[i] == w[0];
        WalkDescends(g, order, w, i, i);
      }
    }
  }

  // ---------------------------------------------------------------------------------------------
  // The readiness rule
  // ---------------------------------------------------------------------------------------------

  /** A package may start once every package it depends on is merged. */
  ghost predicate Ready<Id(!new)>(g: Graph<Id>, merged: set<Id>, n: Id) {
    n in g && n !in merged && forall d | d in g[n] :: d in merged
  }

  /** The same with an eye to known dependencies only. */
  ghost predicate Unhindered<Id(!new)>(g: Graph<Id>, merged: set<Id>, n: Id) {
    n in g && n !in merged && forall d | Edge(g, n, d) :: d in merged
  }

  lemma {:induction false} StuckWalk<Id(!new)>(g: Graph<Id>, merged: set<Id>, start: Id, n: nat) returns (w: seq<Id>)
    requires start in g && start !in merged && forall x :: !Unhindered(g, merged, x)
    ensures IsWalk(g, w) && |w| == n + 1 && w[0] == start && forall i | 0 <= i < |w| :: w[i] !in merged
    decreases n
  {
    if n == 0 {
      w := [start];
    } else {
      assert !Unhindered(g, merged, start);
      var d :| Edge(g, start, d) && d !in merged;
      var rest := StuckWalk(g, merged, d, n - 1);
      w := [start] + rest;
    }
  }

  lemma {:induction false} SomeNodeIsUnhindered<Id(!new)>(g: Graph<Id>, merged: set<Id>) returns (n: Id)
    requires !HasCycle(g) && !(g.Keys <= merged)
    ensures Unhindered(g, merged, n)
  {
    if forall x :: !Unhindered(g, merged, x) {
      var start :| start in g && start !in merged;
      var w := StuckWalk(g, merged, start, |g.Keys|);
      LongWalkRepeats(g, w, g.Keys);
    }
    n :| Unhindered(g, merged, n);
  }

  /** The readiness rule never deadlocks on dependencies: while an acyclic milestone whose dependencies are
      known has an unmerged package, some unmerged package has all its dependencies merged. */
  lemma {:induction false} SomePackageIsReady<Id(!new)>(g: Graph<Id>, merged: set<Id>) returns (n: Id)
    requires Closed(g) && !HasCycle(g) && !(g.Keys <= merged)
    ensures Ready(g, merged, n)
  {
    n := SomeNodeIsUnhindered(g, merged);
  }

  /** Why the dependencies must be known: a package with an unknown one is ready only if that is merged all
      the same, so it never is in a milestone on its own. */
  lemma {:induction false} UnknownDependencyIsNeverReady<Id(!new)>(g: Graph<Id>, merged: set<Id>, n: Id, d: Id)
    requires n in g && d in g[n] && d !in g && merged <= g.Keys
    ensures !Ready(g, merged, n)
  {
  }

  lemma {:induction false} OrderCompletes<Id(!new)>(g: Graph<Id>, done: seq<Id>) returns (order: seq<Id>)
    requires !HasCycle(g) && Ordered(g, done)
    ensures IsOrderOf(g, order) && done <= order
    decreases |g.Keys| - |done|
  {
    DistinctFits(done, g.Keys);
    if g.Keys <= Elements(done) {
      order := done;
    } else {
      var n := SomeNodeIsUnhindered(g, Elements(done));
      DistinctFits(done + [n], g.Keys);
      ExtendOrder(g, done, n);
      order := OrderCompletes(g, done + [n]);
    }
  }

  lemma {:induction false} ExtendOrder<Id(!new)>(g: Graph<Id>, done: seq<Id>, n: Id)
    requires Ordered(g, done) && n in g && n !in done && forall d | Edge(g, n, d) :: d in done
    ensures Ordered(g, done + [n])
  {
    var order := done + [n];
    forall i, d | 0 <= i < |order| && Edge(g, order[i], d) ensures d in order[..i] {
      assert order[..i] == done[..i];
      if i == |done| {
        assert done[..i] == done;
      }
    }
  }

  /** Merging ready packages one after another, in any way at all, until none is left: every partial
      schedule extends to one that merges the whole milestone, each package ready when its turn comes. */
  lemma {:induction false} ScheduleCompletes<Id(!new)>(g: Graph<Id>, done: seq<Id>) returns (order: seq<Id>)
    requires Closed(g) && !HasCycle(g) && Ordered(g, done)
    ensures IsOrderOf(g, order) && done <= order
    ensures forall i | 0 <= i < |order| :: Ready(g, Elements(order[..i]), order[i])
  {
    order := OrderCompletes(g, done);
    forall i | 0 <= i < |order| ensures Ready(g, Elements(order[..i]), order[i]) {
      forall d | d in g[order[i]] ensures d in order[..i] {
        assert Edge(g, order[i], d);
      }
    }
  }

  /** Acyclic exactly when the nodes can be listed with every dependency first. */
  lemma {:induction false} AcyclicMeansOrderable<Id(!new)>(g: Graph<Id>)
    ensures !HasCycle(g) <==> exists order :: IsOrderOf(g, order)
  {
    if !HasCycle(g) {
      var order := OrderCompletes(g, []);
    } else if exists order :: IsOrderOf(g, order) {
      var order :| IsOrderOf(g, order);
      OrderedHasNoCycle(g, order);
    }
  }

  // ---------------------------------------------------------------------------------------------
  // The search of the milestone loader: nodes being visited and nodes done with
  // ---------------------------------------------------------------------------------------------

  class AcyclicityCheck<Id(==,!new)> {
    const graph: Graph<Id>
    var visiting: set<Id>
    var visited: set<Id>
    ghost var order: seq<Id>
    ghost var stack: seq<Id>

    constructor (graph: Graph<Id>)
      requires Closed(graph)
      ensures this.graph == graph && Valid() && stack == [] && visited == {}
    {
      this.graph := graph;
      visiting, visited, order, stack := {}, {}, [], [];
    }

    /** Done nodes are listed dependencies first; nodes being visited form a walk. */
    ghost predicate Valid()
      reads this
    {
      && Closed(graph)
      && Ordered(graph, order) && visited == Elements(order)
      && visiting == Elements(stack) && visiting !! visited
      && (stack != [] ==> IsWalk(graph, stack))
    }

    /** Err carries the node the cycle was noticed at. */
    method Visit(node: Id) returns (r: Result<(), Id>)
      requires Valid() && node in graph && (stack != [] ==> Edge(graph, stack[|stack| - 1], node))
      modifies this
      ensures r.Ok? ==> Valid() && node in visited && old(visited) <= visited && stack == old(stack)
      ensures r.Err? ==> exists w :: IsCycle(graph, w) && w[0] == r.error
      decreases graph.Keys - visiting - visited
    {
      if node in visited {
        return Ok(());
      }
      if node in visiting {
        ghost var k :| 0 <= k < |stack| && stack[k] == node;
        ghost var w := stack[k..] + [node];
        assert IsCycle(graph, w) && w[0] == node;
        return Err(node);
      }
      visiting := visiting + {node};
      stack := stack + [node];
      assert IsWalk(graph, stack);
      var i := 0;
      while i < |graph[node]|
        invariant 0 <= i <= |graph[node]|
        invariant Valid() && stack == old(stack) + [node]
        invariant old(visited) <= visited && visiting == old(visiting) + {node}
        invariant forall j | 0 <= j < i :: graph[node][j] in visited
      {
        assert Edge(graph, node, graph[node][i]);
        assert graph.Keys - visiting - visited < graph.Keys - old(visiting) - old(visited) by {
          assert node in graph.Keys - old(visiting) - old(visited);
        }
        var rest := Visit(graph[node][i]);
        if rest.Err? {
          return rest;
        }
        i := i + 1;
      }
      visiting := visiting - {node};
      visited := visited + {node};
      ExtendOrder(graph, order, node);
      order := order + [node];
      stack := old(stack);
      r := Ok(());
    }
  }

  /** The check a milestone must pass before it is loaded: normal return exactly for acyclic
      dependencies, otherwise a node that lies on a cycle. */
  method AssertAcyclic<Id(==,!new)>(graph: Graph<Id>, nodes: seq<Id>) returns (r: Result<(), Id>)
    requires Closed(graph) && forall n :: n in nodes <==> n in graph
    ensures r.Ok? <==> !HasCycle(graph)
    ensures r.Err? ==> exists w :: IsCycle(graph, w) && w[0] == r.error
  {
    var check := new AcyclicityCheck(graph);
    var i := 0;
    while i < |nodes|
      invariant 0 <= i <= |nodes|
      invariant check.Valid() && check.stack == [] && check.graph == graph
      invariant forall j | 0 <= j < i :: nodes[j] in check.visited
    {
      r := check.Visit(nodes[i]);
      if r.Err? {
        return;
      }
      i := i + 1;
    }
    OrderedHasNoCycle(graph, check.order);
    r := Ok(());
  }

  // ---------------------------------------------------------------------------------------------
  // The search of the specification compiler and the architecture verifier: the path so far is passed down
  // ---------------------------------------------------------------------------------------------

  datatype Issue<Id> = CyclePath(path: seq<Id>) | UnknownDependency(node: Id, dependency: Id)

  /** A path of the search: no node twice, each leading to the next and the last to `id`. */
  ghost predicate PathTo<Id>(g: Graph<Id>, path: seq<Id>, id: Id) {
    Distinct(path) && id in g && IsWalk(g, path + [id])
  }

  /** Everything one call reports, in order. */
  ghost function Reports<Id(!new)>(g: Graph<Id>, id: Id, path: seq<Id>): seq<Issue<Id>>
    requires PathTo(g, path, id)
    decreases |g.Keys| - |path|, 1, 0
  {
    if id in path then [CyclePath(path + [id])]
    else ReportsOf(g, g[id], id, path)
  }

  ghost function ReportsOf<Id(!new)>(g: Graph<Id>, dependencies: seq<Id>, id: Id, path: seq<Id>): seq<Issue<Id>>
    requires PathTo(g, path, id) && id !in path && forall d | d in dependencies :: d in g[id]
    decreases |g.Keys| - |path|, 0, |dependencies|
  {
    if dependencies == [] then []
    else
      var d := dependencies[0];
      (if d in g then
         StepPath(g, path, id, d);
         Reports(g, d, path + [id])
       else [UnknownDependency(id, d)])
      + ReportsOf(g, dependencies[1..], id, path)
  }

  lemma {:induction false} StepPath<Id(!new)>(g: Graph<Id>, path: seq<Id>, id: Id, d: Id)
    requires PathTo(g, path, id) && id !in path && Edge(g, id, d)
    ensures PathTo(g, path + [id], d) && |path| + 1 <= |g.Keys|
  {
    var w := path + [id];
    assert forall i | 0 <= i < |w| :: w[i] in g;
    DistinctFits(w, g.Keys);
    assert IsWalk(g, w + [d]);
  }

  /** A reported path ends in a cycle: cut at the first visit of its last node, it is one. */
  lemma {:induction false} ReportIsCycle<Id(!new)>(g: Graph<Id>, id: Id, path: seq<Id>, p: seq<Id>)
    requires PathTo(g, path, id) && CyclePath(p) in Reports(g, id, path)
    ensures p != [] && exists k :: 0 <= k < |p| - 1 && IsCycle(g, p[k..])
    decreases |g.Keys| - |path|, 1, 0
  {
    if id in path {
      var k :| 0 <= k < |path| && path[k] == id;
      assert p == path + [id] && IsCycle(g, p[k..]);
    } else {
      ReportOfIsCycle(g, g[id], id, path, p);
    }
  }

  lemma {:induction false} ReportOfIsCycle<Id(!new)>(g: Graph<Id>, dependencies: seq<Id>, id: Id, path: seq<Id>,
      p: seq<Id>)
    requires PathTo(g, path, id) && id !in path && (forall d | d in dependencies :: d in g[id])
    requires CyclePath(p) in ReportsOf(g, dependencies, id, path)
    ensures p != [] && exists k :: 0 <= k < |p| - 1 && IsCycle(g, p[k..])
    decreases |g.Keys| - |path|, 0, |dependencies|
  {
    var d := dependencies[0];
    if d in g {
      StepPath(g, path, id, d);
      if CyclePath(p) in Reports(g, d, path + [id]) {
        ReportIsCycle(g, d, path + [id], p);
        return;
      }
    }
    ReportOfIsCycle(g, dependencies[1..], id, path, p);
  }

  lemma {:induction false} ReportsOfCovers<Id(!new)>(g: Graph<Id>, dependencies: seq<Id>, id: Id, path: seq<Id>, d: Id)
    requires PathTo(g, path, id) && id !in path && (forall x | x in dependencies :: x in g[id]) && d in dependencies
    ensures d !in g ==> UnknownDependency(id, d) in ReportsOf(g, dependencies, id, path)
    ensures d in g ==> PathTo(g, path + [id], d)
    ensures d in g ==> forall issue | issue in Reports(g, d, path + [id]) ::
        issue in ReportsOf(g, dependencies, id, path)
  {
    if d in g {
      StepPath(g, path, id, d);
    }
    if dependencies[0] != d {
      ReportsOfCovers(g, dependencies[1..], id, path, d);
    }
  }

  /** A search with a walk in front of it that is too long for distinct nodes reports a cycle. */
  lemma {:induction false} LongWalkIsReported<Id(!new)>(g: Graph<Id>, path: seq<Id>, w: seq<Id>)
    requires IsWalk(g, w) && PathTo(g, path, w[0]) && |path| + |w| > |g.Keys|
    ensures exists p :: CyclePath(p) in Reports(g, w[0], path)
    decreases |w|
  {
    var id := w[0];
    if id in path {
      assert Reports(g, id, path) == [CyclePath(path + [id])];
      assert CyclePath(path + [id]) in Reports(g, id, path);
    } else if |w| == 1 {
      assert forall i | 0 <= i < |path + [id]| :: (path + [id])[i] in g;
      DistinctFits(path + [id], g.Keys);
    } else {
      assert Edge(g, w[0], w[1]);
      ReportsOfCovers(g, g[id], id, path, w[1]);
      LongWalkIsReported(g, path + [id], w[1..]);
    }
  }

  /** An unknown dependency is only ever reported for a real edge to a missing node. */
  lemma {:induction false} UnknownIsReal<Id(!new)>(g: Graph<Id>, id: Id, path: seq<Id>, n: Id, d: Id)
    requires PathTo(g, path, id) && UnknownDependency(n, d) in Reports(g, id, path)
    ensures n in g && d in g[n] && d !in g
    decreases |g.Keys| - |path|, 1, 0
  {
    if id !in path {
      UnknownOfIsReal(g, g[id], id, path, n, d);
    }
  }

  lemma {:induction false} UnknownOfIsReal<Id(!new)>(g: Graph<Id>, dependencies: seq<Id>, id: Id, path: seq<Id>, n: Id,
      d: Id)
    requires PathTo(g, path, id) && id !in path && (forall x | x in dependencies :: x in g[id])
    requires UnknownDependency(n, d) in ReportsOf(g, dependencies, id, path)
    ensures n in g && d in g[n] && d !in g
    decreases |g.Keys| - |path|, 0, |dependencies|
  {
    var x := dependencies[0];
    if x in g {
      StepPath(g, path, id, x);
      if UnknownDependency(n, d) in Reports(g, x, path + [id]) {
        UnknownIsReal(g, x, path + [id], n, d);
        return;
      }
    } else if x == d && n == id {
      return;
    }
    UnknownOfIsReal(g, dependencies[1..], id, path, n, d);
  }

  class CycleReporter<Id(==,!new)> {
    const graph: Graph<Id>
    var issues: seq<Issue<Id>>

    constructor (graph: Graph<Id>)
      ensures this.graph == graph && issues == []
    {
      this.graph := graph;
      issues := [];
    }

    method Visit(id: Id, path: seq<Id>)
      requires PathTo(graph, path, id)
      modifies this
      ensures issues == old(issues) + Reports(graph, id, path)
      decreases |graph.Keys| - |path|
    {
      if id in path {
        issues := issues + [CyclePath(path + [id])];
        return;
      }
      var dependencies := graph[id];
      var i := 0;
      while i < |dependencies|
        invariant 0 <= i <= |dependencies|
        invariant issues + ReportsOf(graph, dependencies[i..], id, path) == old(issues) + Reports(graph, id, path)
      {
        var d := dependencies[i];
        assert dependencies[i..][0] == d && dependencies[i..][1..] == dependencies[i + 1..];
        if d in graph {
          StepPath(graph, path, id, d);
          Visit(d, path + [id]);
        } else {
          issues := issues + [UnknownDependency(id, d)];
        }
        i := i + 1;
      }
    }
  }

  /** Searching from every node: a cycle is reported exactly when there is one, an unknown dependency
      exactly for the edges that leave the graph. The compiler reports both; the architecture verifier
      passes over edges that leave the graph and reports the cycles alone. */
  method FindIssues<Id(==,!new)>(graph: Graph<Id>, nodes: seq<Id>) returns (issues: seq<Issue<Id>>)
    requires forall n :: n in nodes <==> n in graph
    ensures HasCycle(graph) <==> exists p :: CyclePath(p) in issues
    ensures forall p | CyclePath(p) in issues :: p != [] && exists k :: 0 <= k < |p| - 1 && IsCycle(graph, p[k..])
    ensures forall n, d :: UnknownDependency(n, d) in issues <==> n in graph && d in graph[n] && d !in graph
  {
    var reporter := new CycleReporter(graph);
    var i := 0;
    while i < |nodes|
      invariant 0 <= i <= |nodes|
      invariant reporter.graph == graph
      invariant forall j | 0 <= j < i :: PathTo(graph, [], nodes[j])
      invariant forall j, issue | 0 <= j < i && issue in Reports(graph, nodes[j], []) :: issue in reporter.issues
      invariant forall issue | issue in reporter.issues :: exists j ::
          0 <= j < i && issue in Reports(graph, nodes[j], [])
    {
      assert [] + [nodes[i]] == [nodes[i]];
      reporter.Visit(nodes[i], []);
      i := i + 1;
    }
    issues := reporter.issues;
    CyclesAreFound(graph, nodes, issues);
  }

  lemma {:induction false} CyclesAreFound<Id(!new)>(g: Graph<Id>, nodes: seq<Id>, issues: seq<Issue<Id>>)
    requires forall n :: n in nodes <==> n in g
    requires forall j | 0 <= j < |nodes| :: PathTo(g, [], nodes[j])
    requires forall j, issue | 0 <= j < |nodes| && issue in Reports(g, nodes[j], []) :: issue in issues
    requires forall issue | issue in issues :: exists j :: 0 <= j < |nodes| && issue in Reports(g, nodes[j], [])
    ensures HasCycle(g) <==> exists p :: CyclePath(p) in issues
    ensures forall p | CyclePath(p) in issues :: p != [] && exists k :: 0 <= k < |p| - 1 && IsCycle(g, p[k..])
    ensures forall n, d :: UnknownDependency(n, d) in issues <==> n in g && d in g[n] && d !in g
  {
    forall p | CyclePath(p) in issues
      ensures p != [] && exists k :: 0 <= k < |p| - 1 && IsCycle(g, p[k..])
    {
      var j :| 0 <= j < |nodes| && CyclePath(p) in Reports(g, nodes[j], []);
      ReportIsCycle(g, nodes[j], [], p);
    }
    if HasCycle(g) {
      var c :| IsCycle(g, c);
      assert c[0] in nodes;
      var j :| 0 <= j < |nodes| && nodes[j] == c[0];
      var w := WalkAround(g, c, 0, |g.Keys|);
      LongWalkIsReported(g, [], w);
    }
    forall n, d ensures UnknownDependency(n, d) in issues <==> n in g && d in g[n] && d !in g {
      if UnknownDependency(n, d) in issues {
        var j :| 0 <= j < |nodes| && UnknownDependency(n, d) in Reports(g, nodes[j], []);
        UnknownIsReal(g, nodes[j], [], n, d);
      } else if n in g && d in g[n] && d !in g {
        var j :| 0 <= j < |nodes| && nodes[j] == n;
        ReportsOfCovers(g, g[n], n, [], d);
      }
    }
  }
}
