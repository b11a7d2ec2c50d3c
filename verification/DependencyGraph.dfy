/** The dependency graph of registered resources: definition, removal and startup order. */
module DependencyGraph {
  import opened Names
  import opened Graphs
  import opened Topology

  datatype Error = Ok | ErrInvalidArgument | ErrCycle

  /** The order is present exactly when there is no cycle. */
  datatype Startup = Order(names: seq<string>) | CycleDetected

  /** The resources that depend on `n`, met in whatever order the map is ranged over. */
  method DependentsOf(edges: Graph, n: string) returns (ds: seq<string>)
    ensures ListsDependents(edges, n, ds)
  {
    ds := [];
    var todo := edges.Keys;
    while todo != {}
      invariant todo <= edges.Keys && NoDup(ds)
      invariant forall x :: x in ds <==> x in edges && x !in todo && n in edges[x]
      decreases todo
    {
      var from :| from in todo;
      if n in edges[from] {
        ds := ds + [from];
      }
      todo := todo - {from};
    }
  }

  /** Every node's count is the number of its dependencies that are not placed yet. */
  ghost predicate Counts(g: Graph, nodes: set<string>, done: set<string>, indeg: map<string, nat>) {
    indeg.Keys == nodes && forall x | x in nodes :: indeg[x] == |Deps(g, x) - done|
  }

  ghost predicate ListsDependents(g: Graph, n: string, ds: seq<string>) {
    NoDup(ds) && forall x :: x in ds <==> n in Deps(g, x)
  }

  lemma OneFewerOpen(deps: set<string>, done: set<string>, n: string)
    requires n !in done
    ensures |deps - (done + {n})| == |deps - done| - if n in deps then 1 else 0
  {
    assert deps - (done + {n}) == (deps - done) - {n};
  }

  lemma CountsAfter(
      g: Graph, nodes: set<string>, done: set<string>, n: string, ds: seq<string>, indeg: map<string, nat>,
      indeg': map<string, nat>)
    requires Counts(g, nodes, done, indeg) && n !in done && ListsDependents(g, n, ds)
    requires indeg'.Keys == nodes && forall x | x in nodes :: indeg'[x] + multiset(ds)[x] == indeg[x]
    ensures Counts(g, nodes, done + {n}, indeg')
  {
    forall x | x in nodes ensures indeg'[x] == |Deps(g, x) - (done + {n})| {
      OnceInMultiset(ds, x);
      OneFewerOpen(Deps(g, x), done, n);
    }
  }

  lemma ZeroMeansReady(g: Graph, nodes: set<string>, done: set<string>, indeg: map<string, nat>, x: string)
    requires Counts(g, nodes, done, indeg) && x in nodes
    ensures indeg[x] == 0 <==> Deps(g, x) <= done
  {
    var open := Deps(g, x) - done;
    assert indeg[x] == |open|;
    if open == {} {
      forall d | d in Deps(g, x) ensures d in done {
        assert d !in open;
      }
    } else {
      var d :| d in open;
    }
  }

  /** Ready names have count zero, and a dependent's count allows one decrement. */
  lemma RoundCanSatisfy(
      g: Graph, nodes: set<string>, order: seq<string>, indeg: map<string, nat>, ready: seq<string>, ds: seq<string>)
    requires Progress(g, nodes, order, ready) && ready != [] && g.Keys <= nodes
    requires Counts(g, nodes, Elements(order), indeg) && ListsDependents(g, ready[0], ds)
    ensures ready[0] !in Elements(order) && CanSatisfy(indeg, ready[1..], ds)
  {
    var n, done := ready[0], Elements(order);
    assert n in Elements(ready);
    assert n !in done;
    forall x | x in ds ensures x in indeg && multiset(ds)[x] <= indeg[x] {
      DependentIsOpen(g, nodes, done, indeg, n, ds, x);
    }
    forall i | 0 < i < |ready| ensures ready[i] in indeg && indeg[ready[i]] == 0 {
      assert ready[i] in Elements(ready);
      ZeroMeansReady(g, nodes, done, indeg, ready[i]);
    }
    forall x | x in ready[1..] ensures x in indeg && indeg[x] == 0 {
      var i :| 0 <= i < |ready[1..]| && ready[1..][i] == x;
      assert ready[i + 1] == x;
    }
  }

  lemma DependentIsOpen(
      g: Graph, nodes: set<string>, done: set<string>, indeg: map<string, nat>, n: string, ds: seq<string>, x: string)
    requires Counts(g, nodes, done, indeg) && g.Keys <= nodes && n !in done && ListsDependents(g, n, ds) && x in ds
    ensures x in indeg && multiset(ds)[x] <= indeg[x]
  {
    OnceInMultiset(ds, x);
    assert n in Deps(g, x) - done;
  }

  lemma SatisfiedIsNextReady(
      g: Graph, nodes: set<string>, order: seq<string>, indeg: map<string, nat>, ready: seq<string>, ds: seq<string>,
      indeg': map<string, nat>, ready': seq<string>)
    requires ready != [] && g.Keys <= nodes && ListsDependents(g, ready[0], ds)
    requires Counts(g, nodes, Elements(order) + {ready[0]}, indeg')
    requires Satisfied(indeg, ready[1..], ds, indeg', ready')
    ensures NextReady(g, nodes, order, ready, ready')
  {
    var n, done := ready[0], Elements(order);
    forall x ensures x in ready' <==> x in ready[1..] || (x in nodes && n in Deps(g, x) && Deps(g, x) <= done + {n}) {
      if x in nodes {
        ZeroMeansReady(g, nodes, done + {n}, indeg', x);
      }
    }
  }

  lemma RoundKeepsCounts(
      g: Graph, nodes: set<string>, order: seq<string>, indeg: map<string, nat>, ready: seq<string>, n: string,
      ds: seq<string>, indeg': map<string, nat>, ready': seq<string>)
    requires n !in Elements(order) && ListsDependents(g, n, ds)
    requires Counts(g, nodes, Elements(order), indeg) && Satisfied(indeg, ready, ds, indeg', ready')
    ensures Elements(order + [n]) == Elements(order) + {n} && Counts(g, nodes, Elements(order + [n]), indeg')
  {
    CountsAfter(g, nodes, Elements(order), n, ds, indeg, indeg');
    assert Elements(order + [n]) == Elements(order) + {n};
  }

  lemma SortKeepsDependents(g: Graph, n: string, ds: seq<string>, sorted: seq<string>)
    requires ListsDependents(g, n, ds) && multiset(sorted) == multiset(ds)
    ensures ListsDependents(g, n, sorted)
  {
    PermutationKeeps(ds, sorted);
    forall x ensures x in sorted <==> x in ds {
      assert x in Elements(sorted) <==> x in Elements(ds);
    }
  }

  /** One round of the loop: place the first ready name and settle its dependents. */
  method PlaceNext(
      edges: Graph, ghost nodes: set<string>, order: seq<string>, indeg: map<string, nat>, ready: seq<string>)
    returns (order': seq<string>, indeg': map<string, nat>, ready': seq<string>)
    requires Progress(edges, nodes, order, ready) && Ascending(ready) && ready != []
    requires Counts(edges, nodes, Elements(order), indeg) && edges.Keys <= nodes
    ensures order' == order + [ready[0]]
    ensures Progress(edges, nodes, order', ready') && Ascending(ready')
    ensures Counts(edges, nodes, Elements(order'), indeg')
  {
    var n := ready[0];
    order' := order + [n];
    var unsorted := DependentsOf(edges, n);
    var dependents := SortStrings(unsorted);
    SortKeepsDependents(edges, n, unsorted, dependents);
    RoundCanSatisfy(edges, nodes, order, indeg, ready, dependents);
    var appended;
    indeg', appended := Satisfy(indeg, ready[1..], dependents);
    RoundKeepsCounts(edges, nodes, order, indeg, ready[1..], n, dependents, indeg', appended);
    SatisfiedIsNextReady(edges, nodes, order, indeg, ready, dependents, indeg', appended);
    PlaceFirst(edges, nodes, order, ready, appended);
    ready' := SortStrings(appended);
    SortKeepsProgress(edges, nodes, order', appended, ready');
  }

  lemma InitialCounts(g: Graph, nodes: set<string>, indeg: map<string, nat>)
    requires indeg.Keys == nodes && forall x | x in nodes :: indeg[x] == |Deps(g, x)|
    ensures Counts(g, nodes, {}, indeg)
  {
    forall x | x in nodes ensures indeg[x] == |Deps(g, x) - {}| {
      assert Deps(g, x) - {} == Deps(g, x);
    }
  }

  lemma InitialProgress(g: Graph, nodes: set<string>, indeg: map<string, nat>, ready: seq<string>)
    requires Counts(g, nodes, {}, indeg)
    requires NoDup(ready) && forall x :: x in ready <==> x in indeg && indeg[x] == 0
    ensures Progress(g, nodes, [], ready)
  {
    assert Elements([]) == {};
    forall x ensures x in Elements(ready) <==> x in Ready(g, nodes, {}) {
      if x in nodes {
        ZeroMeansReady(g, nodes, {}, indeg, x);
      }
    }
    assert [] + Greedy(g, nodes, {}) == Greedy(g, nodes, {});
  }

  /**
   Kahn's algorithm over `known` and everything that occurs in the graph. The result depends only on
   the graph: it is the greedy order if that is complete, and the cycle error otherwise.
   */
  method StartupOrder(edges: Graph, known: seq<string>) returns (r: Startup)
    ensures var nodes := Elements(known) + Endpoints(edges);
            r == if |Greedy(edges, nodes, {})| == |nodes| then Order(Greedy(edges, nodes, {})) else CycleDetected
  {
    var nodes := Elements(known) + Endpoints(edges);
    var indeg: map<string, nat> := map n | n in nodes :: |Deps(edges, n)|;
    InitialCounts(edges, nodes, indeg);
    var unsorted := InitiallyReady(indeg);
    InitialProgress(edges, nodes, indeg, unsorted);
    var ready := SortStrings(unsorted);
    SortKeepsProgress(edges, nodes, [], unsorted, ready);
    var order: seq<string> := [];
    assert Elements(order) == {};
    while ready != []
      invariant Progress(edges, nodes, order, ready) && Ascending(ready)
      invariant Counts(edges, nodes, Elements(order), indeg)
      decreases |nodes| - |order|
    {
      order, indeg, ready := PlaceNext(edges, nodes, order, indeg, ready);
      NoDupWithin(order, nodes);
    }
    NothingLeft(edges, nodes, order);
    if |order| != |nodes| {
      return CycleDetected;
    }
    return Order(order);
  }

  /**
   StartupOrder reports a cycle exactly when there is one. Otherwise it lists every known name and
   every endpoint once, dependencies first, and no such listing is lexicographically smaller.
   */
  lemma StartupOrderIsLeast(edges: Graph, known: seq<string>)
    ensures var nodes := Elements(known) + Endpoints(edges);
            var o := Greedy(edges, nodes, {});
            && (|o| == |nodes| <==> !Cyclic(edges))
            && (|o| == |nodes| ==>
                  && IsTopological(edges, nodes, o)
                  && (forall other :: IsTopological(edges, nodes, other) ==> LexAtMost(o, other)))
  {
    var nodes := Elements(known) + Endpoints(edges);
    var o := Greedy(edges, nodes, {});
    EndpointsAreClosed(edges, nodes);
    GreedySucceedsIffAcyclic(edges, nodes);
    forall other | IsTopological(edges, nodes, other) ensures LexAtMost(o, other) {
      GreedyIsLeast(edges, nodes, other);
    }
  }

  /** The graph with `key` and every dependency on it gone, and no entry left empty. */
  function Without(g: Graph, key: string): Graph {
    map f | f in g && f != key && g[f] - {key} != {} :: g[f] - {key}
  }

  /** Removing a name creates no dependency, and afterwards nothing depends on it. */
  lemma WithoutIsSmaller(g: Graph, key: string, n: string)
    ensures Deps(Without(g, key), n) == if n == key then {} else Deps(g, n) - {key}
  {
  }

  lemma WithoutStaysAcyclic(g: Graph, key: string)
    requires !Cyclic(g)
    ensures !Cyclic(Without(g, key))
  {
    if Cyclic(Without(g, key)) {
      var c :| Cycle(Without(g, key), c);
      forall n ensures Deps(Without(g, key), n) <= Deps(g, n) {
        WithoutIsSmaller(g, key, n);
      }
      SubgraphPath(Without(g, key), g, c);
      assert Cycle(g, c);
    }
  }

  lemma EmptyGraphIsAcyclic()
    ensures !Cyclic(map[])
  {
    forall c: seq<string> | |c| > 1 ensures !Cycle(map[], c) {
      assert Deps(map[], c[0]) == {};
      assert c[0 + 1] !in Deps(map[], c[0]);
    }
  }

  lemma ExistingEdge(g: Graph, from: string, to: string)
    requires to in Deps(g, from)
    ensures WithEdge(g, from, to) == g
  {
    assert Deps(g, from) + {to} == g[from];
  }

  datatype Operation = Defined(from: string, to: string) | Removed(key: string)

  /** What an operation leaves behind, whether accepted or refused. */
  ghost function Perform(g: Graph, op: Operation): Graph {
    match op
    case Removed(key) => Without(g, key)
    case Defined(from, to) =>
      if from == "" || to == "" || from == to || Reaches(g, to, from) then g else WithEdge(g, from, to)
  }

  ghost function PerformAll(ops: seq<Operation>): Graph {
    if ops == [] then map[] else Perform(PerformAll(ops[..|ops| - 1]), ops[|ops| - 1])
  }

  /** From the empty graph, no sequence of definitions and removals ever produces a cycle. */
  lemma {:induction false} OperationsStayAcyclic(ops: seq<Operation>)
    ensures !Cyclic(PerformAll(ops))
  {
    if ops == [] {
      EmptyGraphIsAcyclic();
    } else {
      var g := PerformAll(ops[..|ops| - 1]);
      OperationsStayAcyclic(ops[..|ops| - 1]);
      match ops[|ops| - 1]
      case Removed(key) => WithoutStaysAcyclic(g, key);
      case Defined(from, to) => NewEdgeClosesCycle(g, from, to);
    }
  }

  method ListOf(s: set<string>) returns (xs: seq<string>)
    ensures Elements(xs) == s
  {
    xs := [];
    var todo := s;
    while todo != {}
      invariant todo <= s && Elements(xs) == s - todo
      decreases todo
    {
      var x :| x in todo;
      assert Elements(xs + [x]) == Elements(xs) + {x};
      xs := xs + [x];
      todo := todo - {x};
    }
  }

  class Dependencies {
    var edges: Graph

    /** What every sequence of Define and RemoveNode keeps: no cycle, and no empty entry. */
    ghost predicate Valid()
      reads this
    {
      !Cyclic(edges) && forall f | f in edges :: edges[f] != {}
    }

    constructor ()
      ensures Valid() && edges == map[]
    {
      edges := map[];
      EmptyGraphIsAcyclic();
    }

    method HasCycle() returns (b: bool)
      ensures b <==> Cyclic(edges)
    {
      var nodes := ListOf(Endpoints(edges));
      var r := StartupOrder(edges, nodes);
      StartupOrderIsLeast(edges, nodes);
      return r.CycleDetected?;
    }

    /**
     Add a dependency. It is accepted exactly when `to` has no path to `from`; a refused one leaves
     the graph exactly as it was.
     */
    method Define(from: string, to: string) returns (err: Error)
      requires Valid()
      modifies this
      ensures Valid()
      ensures err == ErrInvalidArgument <==> from == "" || to == ""
      ensures from != "" && to != "" ==> (err == Ok <==> from != to && !Reaches(old(edges), to, from))
      ensures edges == if err == Ok then WithEdge(old(edges), from, to) else old(edges)
      ensures edges == Perform(old(edges), Defined(from, to))
    {
      if from == "" || to == "" {
        return ErrInvalidArgument;
      }
      if from == to {
        return ErrCycle;
      }
      NewEdgeClosesCycle(edges, from, to);
      if from !in edges {
        edges := edges[from := {}];
      }
      edges := edges[from := edges[from] + {to}];
      assert edges == WithEdge(old(edges), from, to);
      var cyclic := HasCycle();
      if cyclic {
        if to in Deps(old(edges), from) {
          ExistingEdge(old(edges), from, to);
          assert false;
        }
        edges := edges[from := edges[from] - {to}];
        assert edges[from] == Deps(old(edges), from);
        if edges[from] == {} {
          edges := edges - {from};
        }
        assert edges == old(edges);
        return ErrCycle;
      }
      return Ok;
    }

    method RemoveNode(key: string)
      requires Valid()
      modifies this
      ensures Valid() && edges == Perform(old(edges), Removed(key))
    {
      edges := edges - {key};
      var todo := edges.Keys;
      while todo != {}
        invariant todo <= edges.Keys
        invariant forall f :: f in edges <==>
                    f in old(edges) && f != key && (f in todo || old(edges)[f] - {key} != {})
        invariant forall f | f in edges :: edges[f] == if f in todo then old(edges)[f] else old(edges)[f] - {key}
        decreases todo
      {
        var from :| from in todo;
        edges := edges[from := edges[from] - {key}];
        if edges[from] == {} {
          edges := edges - {from};
        }
        todo := todo - {from};
      }
      assert edges == Without(old(edges), key);
      WithoutStaysAcyclic(old(edges), key);
    }
  }
}
