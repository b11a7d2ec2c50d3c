/** Health reports: dependency cycles among the reported nodes, and who is affected by an outage. */
module HealthReport {
  import opened Names
  import opened Graphs

  /** `from` depends on `to`. */
  datatype Edge = Edge(from: string, to: string)

  datatype Report = Report(nodes: seq<string>, edges: seq<Edge>)

  /** The dependency graph a list of edges describes. */
  function GraphOf(edges: seq<Edge>): Graph {
    if edges == [] then map[]
    else
      var g, e := GraphOf(edges[..|edges| - 1]), edges[|edges| - 1];
      g[e.from := Deps(g, e.from) + {e.to}]
  }

  function Entries(m: map<string, seq<string>>, n: string): seq<string> {
    if n in m then m[n] else []
  }

  lemma {:induction false} GraphHasEdges(edges: seq<Edge>, n: string, d: string)
    ensures d in Deps(GraphOf(edges), n) <==> Edge(n, d) in edges
  {
    if edges != [] {
      var init, e := edges[..|edges| - 1], edges[|edges| - 1];
      GraphHasEdges(init, n, d);
      assert edges == init + [e];
    }
  }

  /** Neighbours grouped by node, in the order of the edge list; `reverse` groups by target. */
  method Adjacency(edges: seq<Edge>, reverse: bool) returns (m: map<string, seq<string>>)
    ensures forall n, d :: d in Entries(m, n) <==> (if reverse then Edge(d, n) else Edge(n, d)) in edges
  {
    m := map[];
    var i := 0;
    while i < |edges|
      invariant 0 <= i <= |edges|
      invariant forall n, d :: d in Entries(m, n) <==> (if reverse then Edge(d, n) else Edge(n, d)) in edges[..i]
    {
      assert edges[..i + 1] == edges[..i] + [edges[i]];
      var (at, entry) := if reverse then (edges[i].to, edges[i].from) else (edges[i].from, edges[i].to);
      m := m[at := Entries(m, at) + [entry]];
      i := i + 1;
    }
    assert edges[..i] == edges;
  }

  // ---------- who depends on a node ----------

  /** A set with `name` that contains, with any node, everything depending on it, is complete. */
  lemma {:induction false} ClosedSetHasDependents(g: Graph, seen: set<string>, p: seq<string>)
    requires Path(g, p) && p[|p| - 1] in seen
    requires forall x, y | x in seen && x in Deps(g, y) :: y in seen
    ensures p[0] in seen
    decreases |p|
  {
    if |p| > 1 {
      PathSuffix(g, p, 1);
      assert p[1] in Deps(g, p[0]);
      ClosedSetHasDependents(g, seen, p[1..]);
    }
  }

  /** Everything seen leads to `name`, and whatever was dequeued has had its dependents seen. */
  ghost predicate Searched(g: Graph, name: string, seen: set<string>, queue: seq<string>, result: seq<string>) {
    && NoDup(result) && name !in result && seen == Elements(result) + {name}
    && (forall x | x in queue :: x in seen)
    && (forall x | x in seen :: Reaches(g, x, name))
    && (forall x, y | x in seen && x !in queue && x in Deps(g, y) :: y in seen)
  }

  lemma SearchIsComplete(g: Graph, name: string, seen: set<string>, result: seq<string>)
    requires Searched(g, name, seen, [], result)
    ensures forall x :: x in result <==> x != name && Reaches(g, x, name)
  {
    forall x ensures x in result <==> x != name && Reaches(g, x, name) {
      if Reaches(g, x, name) {
        var p :| Joins(g, p, x, name);
        ClosedSetHasDependents(g, seen, p);
      }
    }
  }

  /** Breadth-first search against the dependencies: everyone affected when `name` fails, sorted. */
  method Dependents(r: Report, name: string) returns (affected: seq<string>)
    ensures NoDup(affected) && Ascending(affected)
    ensures forall x :: x in affected <==> x != name && Reaches(GraphOf(r.edges), x, name)
  {
    ghost var g := GraphOf(r.edges);
    var reverse := Adjacency(r.edges, true);
    forall n, d ensures d in Entries(reverse, n) <==> n in Deps(g, d) {
      GraphHasEdges(r.edges, d, n);
    }
    var seen, queue, result := {name}, [name], [];
    ReachesSelf(g, name);
    ghost var universe := g.Keys + {name};
    while queue != []
      invariant Searched(g, name, seen, queue, result) && seen <= universe
      decreases |universe| - |seen|, |queue|
    {
      ghost var before, size := seen, |queue|;
      seen, queue, result := Expand(g, name, universe, Entries(reverse, queue[0]), seen, queue, result);
      if seen == before {
      } else {
        SubsetSize(before, seen);
      }
      SubsetSize(seen, universe);
    }
    SearchIsComplete(g, name, seen, result);
    affected := SortStrings(result);
    PermutationKeeps(result, affected);
    forall x ensures x in affected <==> x in result {
      assert x in Elements(affected) <==> x in Elements(result);
    }
  }

  /** Dequeue one node and enqueue those of its dependents not seen before. */
  method Expand(ghost g: Graph, ghost name: string, ghost universe: set<string>, dependents: seq<string>,
                seen: set<string>, queue: seq<string>, result: seq<string>)
    returns (seen': set<string>, queue': seq<string>, result': seq<string>)
    requires queue != [] && Searched(g, name, seen, queue, result) && seen <= universe && g.Keys <= universe
    requires forall d :: d in dependents <==> queue[0] in Deps(g, d)
    ensures Searched(g, name, seen', queue', result') && seen <= seen' <= universe
    ensures seen' == seen ==> |queue'| < |queue|
  {
    var current := queue[0];
    seen', queue', result' := seen, queue[1..], result;
    var i := 0;
    while i < |dependents|
      invariant 0 <= i <= |dependents|
      invariant NoDup(result') && name !in result' && seen' == Elements(result') + {name}
      invariant seen <= seen' <= universe && (forall x | x in queue' :: x in seen')
      invariant forall x | x in seen' :: Reaches(g, x, name)
      invariant forall x | x in seen' && x !in queue' :: x in seen && (x == current || x !in queue)
      invariant forall k :: 0 <= k < i ==> dependents[k] in seen'
      invariant seen' == seen ==> queue' == queue[1..]
    {
      var d := dependents[i];
      if d !in seen' {
        assert current in seen;
        ReachesStep(g, d, current, name);
        assert Elements(result' + [d]) == Elements(result') + {d};
        seen' := seen' + {d};
        result' := result' + [d];
        queue' := queue' + [d];
      }
      i := i + 1;
    }
  }

  // ---------- cycles ----------

  ghost predicate LeadsToCycle(g: Graph, n: string) {
    exists c :: Cycle(g, c) && Reaches(g, n, c[0])
  }

  /** Colours of the depth-first search: on the current path, or finished. Absent means unvisited. */
  datatype Colour = Grey | Black

  type Colours = map<string, Colour>

  predicate IsGrey(s: Colours, n: string) {
    n in s && s[n] == Grey
  }

  predicate IsBlack(s: Colours, n: string) {
    n in s && s[n] == Black
  }

  /** Finished nodes only depend on finished nodes, and lead to no cycle. */
  ghost predicate FinishedSafe(g: Graph, s: Colours) {
    forall n | IsBlack(s, n) :: !LeadsToCycle(g, n) && forall d | d in Deps(g, n) :: IsBlack(s, d)
  }

  lemma {:induction false} FinishedPath(g: Graph, s: Colours, p: seq<string>)
    requires FinishedSafe(g, s) && Path(g, p) && IsBlack(s, p[0])
    ensures IsBlack(s, p[|p| - 1])
    decreases |p|
  {
    if |p| > 1 {
      PathSuffix(g, p, 1);
      assert p[1] in Deps(g, p[0]);
      FinishedPath(g, s, p[1..]);
    }
  }

  /** What leads to a cycle does so through a dependency: one that does too, or that comes back. */
  lemma CycleAhead(g: Graph, n: string)
    requires LeadsToCycle(g, n)
    ensures exists d :: d in Deps(g, n) && (LeadsToCycle(g, d) || Reaches(g, d, n))
  {
    var c :| Cycle(g, c) && Reaches(g, n, c[0]);
    var p :| Joins(g, p, n, c[0]);
    var q := if |p| == 1 then c else p;
    assert q[1] in Deps(g, q[0]);
    PathSuffix(g, q, 1);
    assert Joins(g, q[1..], q[1], q[|q| - 1]);
  }

  /** A node on the current path whose dependencies are all finished can be finished. */
  lemma FinishNode(g: Graph, s: Colours, n: string)
    requires FinishedSafe(g, s) && !IsBlack(s, n)
    requires forall d | d in Deps(g, n) :: IsBlack(s, d)
    ensures FinishedSafe(g, s[n := Black])
  {
    if LeadsToCycle(g, n) {
      CycleAhead(g, n);
      var d :| d in Deps(g, n) && (LeadsToCycle(g, d) || Reaches(g, d, n));
      if Reaches(g, d, n) {
        var p :| Joins(g, p, d, n);
        FinishedPath(g, s, p);
      }
    }
    forall m | IsBlack(s[n := Black], m)
      ensures !LeadsToCycle(g, m) && forall d | d in Deps(g, m) :: IsBlack(s[n := Black], d)
    {
      if m != n {
        assert IsBlack(s, m);
      }
    }
  }

  /** Putting an unvisited node on the current path leaves the finished ones finished. */
  lemma StartNode(g: Graph, s: Colours, n: string)
    requires FinishedSafe(g, s) && n !in s
    ensures FinishedSafe(g, s[n := Grey])
  {
    forall m | IsBlack(s[n := Grey], m)
      ensures !LeadsToCycle(g, m) && forall d | d in Deps(g, m) :: IsBlack(s[n := Grey], d)
    {
      assert IsBlack(s, m);
    }
  }

  lemma ComeBackLeadsToCycle(g: Graph, a: string, b: string)
    requires b in Deps(g, a) && Reaches(g, b, a)
    ensures LeadsToCycle(g, b)
  {
    var p :| Joins(g, p, b, a);
    assert Cycle(g, p + [b]) by {
      PathExtends(g, p, b);
    }
    ReachesSelf(g, b);
    assert (p + [b])[0] == b;
  }

  lemma DependencyLeadsToCycle(g: Graph, a: string, b: string)
    requires b in Deps(g, a) && LeadsToCycle(g, b)
    ensures LeadsToCycle(g, a)
  {
    var c :| Cycle(g, c) && Reaches(g, b, c[0]);
    ReachesStep(g, a, b, c[0]);
  }

  /** What a visit that found nothing leaves behind: more finished nodes, the same current path. */
  ghost predicate Explored(g: Graph, s: Colours, s': Colours, universe: set<string>) {
    && FinishedSafe(g, s') && s.Keys <= s'.Keys <= universe
    && (forall n :: IsGrey(s', n) <==> IsGrey(s, n))
    && (forall n | IsBlack(s, n) :: IsBlack(s', n))
  }

  ghost predicate Searchable(g: Graph, adj: map<string, seq<string>>, s: Colours, universe: set<string>) {
    && (forall n, d :: d in Entries(adj, n) <==> d in Deps(g, n))
    && s.Keys <= universe && (forall n, d | d in Deps(g, n) :: d in universe)
    && FinishedSafe(g, s)
  }

  /** Depth-first visit; true when it runs into a node on the current path. */
  method Visit(ghost g: Graph, adj: map<string, seq<string>>, s: Colours, node: string, ghost universe: set<string>)
    returns (s': Colours, found: bool)
    requires Searchable(g, adj, s, universe) && node in universe
    requires forall n | IsGrey(s, n) :: Reaches(g, n, node)
    requires IsGrey(s, node) ==> LeadsToCycle(g, node)
    ensures found ==> LeadsToCycle(g, node)
    ensures !found ==> Explored(g, s, s', universe) && IsBlack(s', node)
    decreases |universe| - |s.Keys|, 0
  {
    if node in s && s[node] == Grey {
      return s, true;
    }
    if node in s && s[node] == Black {
      return s, false;
    }
    StartNode(g, s, node);
    var t := s[node := Grey];
    assert t.Keys == s.Keys + {node};
    SubsetSize(t.Keys, universe);
    s', found := VisitAll(g, adj, t, node, universe);
    if found {
      return;
    }
    assert IsGrey(t, node) && IsGrey(s', node);
    FinishNode(g, s', node);
    FinishExplored(g, s, s', node, universe);
    s' := s'[node := Black];
  }

  lemma FinishExplored(g: Graph, s: Colours, s': Colours, n: string, universe: set<string>)
    requires n !in s && n in universe && Explored(g, s[n := Grey], s', universe)
    requires FinishedSafe(g, s'[n := Black])
    ensures Explored(g, s, s'[n := Black], universe)
  {
    var t, t' := s[n := Grey], s'[n := Black];
    forall m ensures IsGrey(t', m) <==> IsGrey(s, m) {
      assert IsGrey(s', m) <==> IsGrey(t, m);
    }
    forall m | IsBlack(s, m) ensures IsBlack(t', m) {
      assert IsBlack(t, m);
    }
    assert s.Keys <= t.Keys;
  }

  /** Visit the dependencies of `node`, which is on the current path, in list order. */
  method VisitAll(ghost g: Graph, adj: map<string, seq<string>>, s: Colours, node: string, ghost universe: set<string>)
    returns (s': Colours, found: bool)
    requires Searchable(g, adj, s, universe) && IsGrey(s, node)
    requires forall n | IsGrey(s, n) :: n == node || Reaches(g, n, node)
    ensures found ==> LeadsToCycle(g, node)
    ensures !found ==> Explored(g, s, s', universe) && forall d | d in Deps(g, node) :: IsBlack(s', d)
    decreases |universe| - |s.Keys|, 1
  {
    s' := s;
    var deps := Entries(adj, node);
    var i := 0;
    while i < |deps|
      invariant 0 <= i <= |deps|
      invariant Explored(g, s, s', universe)
      invariant forall k :: 0 <= k < i ==> IsBlack(s', deps[k])
    {
      var d := deps[i];
      GreyReachesDependency(g, s', node, d);
      SubsetSize(s.Keys, s'.Keys);
      SubsetSize(s'.Keys, universe);
      ghost var before := s';
      s', found := Visit(g, adj, s', d, universe);
      if found {
        DependencyLeadsToCycle(g, node, d);
        return;
      }
      forall k | 0 <= k <= i ensures IsBlack(s', deps[k]) {
        assert k < i ==> IsBlack(before, deps[k]);
      }
      i := i + 1;
    }
    found := false;
  }

  lemma GreyReachesDependency(g: Graph, s: Colours, node: string, d: string)
    requires d in Deps(g, node) && forall n | IsGrey(s, n) :: n == node || Reaches(g, n, node)
    ensures forall n | IsGrey(s, n) :: Reaches(g, n, d)
    ensures IsGrey(s, d) ==> LeadsToCycle(g, d)
  {
    ReachesSelf(g, d);
    ReachesStep(g, node, d, d);
    forall n | IsGrey(s, n) ensures Reaches(g, n, d) {
      if n != node {
        ReachesTransitive(g, n, node, d);
      }
    }
    if IsGrey(s, d) {
      if d == node {
        ReachesSelf(g, d);
      }
      ComeBackLeadsToCycle(g, node, d);
    }
  }

  /**
   Whether validation reports a cycle: exactly when some declared, named node leads to one, self-edges
   included, in whatever order the nodes are visited.
   */
  method ReportsCycle(r: Report) returns (cyclic: bool)
    ensures cyclic <==> exists n :: n in r.nodes && n != "" && LeadsToCycle(GraphOf(r.edges), n)
  {
    ghost var g := GraphOf(r.edges);
    var adj := Adjacency(r.edges, false);
    forall n, d ensures d in Entries(adj, n) <==> d in Deps(g, n) {
      GraphHasEdges(r.edges, n, d);
    }
    var nodes := set n | n in r.nodes && n != "";
    ghost var universe := nodes + Endpoints(g);
    assert forall n, d | d in Deps(g, n) :: d in universe;
    var s: Colours := map[];
    var todo := nodes;
    while todo != {}
      invariant todo <= nodes && s.Keys <= universe && FinishedSafe(g, s)
      invariant forall n :: !IsGrey(s, n)
      invariant forall n | n in nodes && n !in todo :: IsBlack(s, n)
      decreases todo
    {
      var n :| n in todo;
      if n !in s {
        var found;
        s, found := Visit(g, adj, s, n, universe);
        if found {
          return true;
        }
      }
      assert !IsGrey(s, n);
      todo := todo - {n};
    }
    return false;
  }
}
