/**
 Topological orders. `Greedy` is what Kahn's algorithm computes when it always takes the least ready
 name; here it is shown to be the lexicographically least order, and to exist exactly without cycles.
 */
module Topology {
  import opened Names
  import opened Graphs

  /** Names all of whose dependencies are done. */
  function Ready(g: Graph, nodes: set<string>, done: set<string>): set<string> {
    set n | n in nodes - done && Deps(g, n) <= done
  }

  function Greedy(g: Graph, nodes: set<string>, done: set<string>): seq<string>
    decreases nodes - done
  {
    var r := Ready(g, nodes, done);
    if r == {} then [] else [Least(r)] + Greedy(g, nodes, done + {Least(r)})
  }

  /** `order` lists exactly `nodes`, each once, and everything after its dependencies. */
  predicate IsTopological(g: Graph, nodes: set<string>, order: seq<string>) {
    && NoDup(order)
    && Elements(order) == nodes
    && forall i :: 0 <= i < |order| ==> Deps(g, order[i]) <= Elements(order[..i])
  }

  /** `a` comes before `b` in the lexicographic order on lists of names, or equals it. */
  ghost predicate LexAtMost(a: seq<string>, b: seq<string>) {
    a == b || exists k :: 0 <= k < |a| && k < |b| && a[..k] == b[..k] && Less(a[k], b[k])
  }

  predicate Within(g: Graph, n: string, nodes: set<string>) {
    Deps(g, n) <= nodes
  }

  predicate ClosedUnder(g: Graph, nodes: set<string>) {
    forall n {:trigger Within(g, n, nodes)} | n in nodes :: Within(g, n, nodes)
  }

  /** Greedy lists distinct open names, each after its dependencies. */
  lemma {:induction false} GreedyIsOrdered(g: Graph, nodes: set<string>, done: set<string>)
    ensures var o := Greedy(g, nodes, done);
            && NoDup(o) && Elements(o) <= nodes - done
            && forall i :: 0 <= i < |o| ==> Deps(g, o[i]) <= done + Elements(o[..i])
    decreases nodes - done
  {
    var r := Ready(g, nodes, done);
    if r != {} {
      var n := Least(r);
      var rest := Greedy(g, nodes, done + {n});
      var o := Greedy(g, nodes, done);
      GreedyIsOrdered(g, nodes, done + {n});
      forall i | 0 <= i < |o| ensures Deps(g, o[i]) <= done + Elements(o[..i]) {
        if i > 0 {
          assert o[..i] == [n] + rest[..i - 1];
          assert Deps(g, rest[i - 1]) <= done + {n} + Elements(rest[..i - 1]);
          assert Elements(o[..i]) == {n} + Elements(rest[..i - 1]);
        }
      }
    }
  }

  /** When nothing is ready, every open name waits for another open name. */
  lemma NothingReadyIsStuck(g: Graph, nodes: set<string>, done: set<string>)
    requires ClosedUnder(g, nodes) && Ready(g, nodes, done) == {}
    ensures Stuck(g, nodes - done)
  {
    forall n | n in nodes - done ensures Waits(g, n, nodes - done) {
      assert n !in Ready(g, nodes, done) && Within(g, n, nodes);
      var d :| d in Deps(g, n) && d !in done;
      assert d in nodes - done;
    }
  }

  /** If Greedy stops early, the names left over contain a cycle. */
  lemma {:induction false} StuckMeansCycle(g: Graph, nodes: set<string>, done: set<string>)
    requires ClosedUnder(g, nodes) && done <= nodes
    requires |done| + |Greedy(g, nodes, done)| < |nodes|
    ensures Cyclic(g)
    decreases nodes - done
  {
    var r := Ready(g, nodes, done);
    if r != {} {
      var n := Least(r);
      assert |done + {n}| == |done| + 1;
      StuckMeansCycle(g, nodes, done + {n});
    } else {
      NothingReadyIsStuck(g, nodes, done);
      assert nodes == done + (nodes - done);
      assert |nodes| == |done| + |nodes - done|;
      var n :| n in nodes - done;
      StuckSetHasCycle(g, nodes - done, [n]);
    }
  }

  /** Along a path positions in a topological order go down. */
  lemma {:induction false} PathGoesDown(g: Graph, nodes: set<string>, order: seq<string>, p: seq<string>, i: nat)
    requires IsTopological(g, nodes, order) && Path(g, p) && i < |order| && order[i] == p[0]
    ensures exists j :: 0 <= j <= i && order[j] == p[|p| - 1] && (|p| > 1 ==> j < i)
    decreases |p|
  {
    if |p| > 1 {
      assert p[1] in Deps(g, p[0]);
      assert p[1] in Elements(order[..i]);
      var k :| 0 <= k < i && order[k] == p[1];
      PathSuffix(g, p, 1);
      PathGoesDown(g, nodes, order, p[1..], k);
    }
  }

  /** A graph with a topological order has no cycle. */
  lemma OrderMeansAcyclic(g: Graph, nodes: set<string>, order: seq<string>)
    requires IsTopological(g, nodes, order) && g.Keys <= nodes
    ensures !Cyclic(g)
  {
    if Cyclic(g) {
      var c :| Cycle(g, c);
      assert c[1] in Deps(g, c[0]);
      assert c[0] in Elements(order);
      var i :| 0 <= i < |order| && order[i] == c[0];
      PathGoesDown(g, nodes, order, c, i);
    }
  }

  lemma EndpointsAreClosed(g: Graph, nodes: set<string>)
    requires Endpoints(g) <= nodes
    ensures ClosedUnder(g, nodes)
  {
  }

  lemma FullGreedyIsTopological(g: Graph, nodes: set<string>)
    requires |Greedy(g, nodes, {})| == |nodes|
    ensures IsTopological(g, nodes, Greedy(g, nodes, {}))
  {
    var o := Greedy(g, nodes, {});
    GreedyIsOrdered(g, nodes, {});
    NoDupWithin(o, nodes);
    forall i | 0 <= i < |o| ensures Deps(g, o[i]) <= Elements(o[..i]) {
      assert {} + Elements(o[..i]) == Elements(o[..i]);
    }
  }

  /** Greedy covers all nodes exactly when there is no cycle, and then it is a topological order. */
  lemma GreedySucceedsIffAcyclic(g: Graph, nodes: set<string>)
    requires g.Keys <= nodes && ClosedUnder(g, nodes)
    ensures var o := Greedy(g, nodes, {});
            if Cyclic(g) then |o| < |nodes| else |o| == |nodes| && IsTopological(g, nodes, o)
  {
    var o := Greedy(g, nodes, {});
    GreedyIsOrdered(g, nodes, {});
    NoDupWithin(o, nodes);
    if |o| == |nodes| {
      FullGreedyIsTopological(g, nodes);
      OrderMeansAcyclic(g, nodes, o);
    } else {
      StuckMeansCycle(g, nodes, {});
    }
  }

  lemma LexCons(n: string, a: seq<string>, b: seq<string>)
    requires LexAtMost(a, b)
    ensures LexAtMost([n] + a, [n] + b)
  {
    if a != b {
      var k :| 0 <= k < |a| && k < |b| && a[..k] == b[..k] && Less(a[k], b[k]);
      assert ([n] + a)[..k + 1] == [n] + a[..k] && ([n] + b)[..k + 1] == [n] + b[..k];
      assert Less(([n] + a)[k + 1], ([n] + b)[k + 1]);
    }
  }

  lemma LexLess(a: seq<string>, b: seq<string>)
    requires a != [] && b != [] && Less(a[0], b[0])
    ensures LexAtMost(a, b)
  {
    assert a[..0] == b[..0];
  }

  /** Once all of `order[..k]` is done, its next name is ready. */
  lemma NextIsReady(g: Graph, nodes: set<string>, order: seq<string>, k: nat)
    requires IsTopological(g, nodes, order) && k < |order|
    ensures order[k] in Ready(g, nodes, Elements(order[..k]))
    ensures Elements(order[..k + 1]) == Elements(order[..k]) + {order[k]}
  {
    assert order[k] in Elements(order);
    assert order[..k + 1] == order[..k] + [order[k]];
  }

  /** Compare Greedy, having already placed `order[..k]`, with what the topological order does next. */
  lemma {:induction false} GreedyBeats(g: Graph, nodes: set<string>, order: seq<string>, k: nat)
    requires IsTopological(g, nodes, order) && k <= |order|
    ensures LexAtMost(Greedy(g, nodes, Elements(order[..k])), order[k..])
    decreases |order| - k
  {
    var done := Elements(order[..k]);
    var o := Greedy(g, nodes, done);
    if k == |order| {
      assert order[..k] == order;
      assert Ready(g, nodes, done) == {};
    } else {
      NextIsReady(g, nodes, order, k);
      var n := Least(Ready(g, nodes, done));
      assert order[k..] == [order[k]] + order[k + 1..];
      if n != order[k] {
        LexLess(o, order[k..]);
      } else {
        GreedyBeats(g, nodes, order, k + 1);
        LexCons(n, Greedy(g, nodes, done + {n}), order[k + 1..]);
      }
    }
  }

  /** No topological order comes before Greedy in the lexicographic order. */
  lemma GreedyIsLeast(g: Graph, nodes: set<string>, order: seq<string>)
    requires IsTopological(g, nodes, order)
    ensures LexAtMost(Greedy(g, nodes, {}), order)
  {
    GreedyBeats(g, nodes, order, 0);
    assert Elements(order[..0]) == {} && order[0..] == order;
  }

  // ---------- the loop both schedulers share ----------

  /** How far Kahn's loop has come: `order` is placed, `ready` lists the ready names in order. */
  ghost predicate Progress(g: Graph, nodes: set<string>, order: seq<string>, ready: seq<string>) {
    && NoDup(order) && Elements(order) <= nodes
    && (forall x | x in order :: Deps(g, x) <= Elements(order))
    && Greedy(g, nodes, {}) == order + Greedy(g, nodes, Elements(order))
    && NoDup(ready) && Elements(ready) == Ready(g, nodes, Elements(order))
  }

  /** What becomes ready when `n` is done: what was, except `n`, and what waited only for `n`. */
  lemma ReadyAfter(g: Graph, nodes: set<string>, done: set<string>, n: string, x: string)
    requires n in Ready(g, nodes, done) && forall d | d in done :: Deps(g, d) <= done
    ensures x in Ready(g, nodes, done + {n}) <==>
              || (x in Ready(g, nodes, done) && x != n)
              || (x in nodes && n in Deps(g, x) && Deps(g, x) <= done + {n})
  {
    if n !in Deps(g, x) && Deps(g, x) <= done + {n} {
      assert Deps(g, x) <= done;
    }
  }

  ghost predicate NextReady(g: Graph, nodes: set<string>, order: seq<string>, ready: seq<string>, ready': seq<string>)
    requires ready != []
  {
    && NoDup(ready')
    && forall x :: x in ready' <==>
         || x in ready[1..]
         || (x in nodes && ready[0] in Deps(g, x) && Deps(g, x) <= Elements(order) + {ready[0]})
  }

  lemma NextReadyIsReady(g: Graph, nodes: set<string>, order: seq<string>, ready: seq<string>, ready': seq<string>)
    requires Progress(g, nodes, order, ready) && ready != [] && NextReady(g, nodes, order, ready, ready')
    ensures Elements(ready') == Ready(g, nodes, Elements(order) + {ready[0]})
  {
    var n, done := ready[0], Elements(order);
    assert n in Elements(ready);
    forall x ensures x in ready' <==> x in Ready(g, nodes, done + {n}) {
      ReadyAfter(g, nodes, done, n, x);
      assert x in ready <==> x == n || x in ready[1..];
      assert x in ready <==> x in Elements(ready);
    }
  }

  /** Placing the first ready name, and listing what is ready then, is one step of the greedy order. */
  lemma PlaceFirst(g: Graph, nodes: set<string>, order: seq<string>, ready: seq<string>, ready': seq<string>)
    requires Progress(g, nodes, order, ready) && ready != [] && Ascending(ready)
    requires NextReady(g, nodes, order, ready, ready')
    ensures Progress(g, nodes, order + [ready[0]], ready')
  {
    var n, done := ready[0], Elements(order);
    NextReadyIsReady(g, nodes, order, ready, ready');
    FirstIsLeast(ready);
    assert n in Ready(g, nodes, done);
    LeastUnique(n, Least(Ready(g, nodes, done)), Ready(g, nodes, done));
    assert Elements(order + [n]) == done + {n};
    assert Greedy(g, nodes, done) == [n] + Greedy(g, nodes, done + {n});
    assert order + ([n] + Greedy(g, nodes, done + {n})) == order + [n] + Greedy(g, nodes, done + {n});
  }

  /** When nothing is ready any more the order is the whole greedy order. */
  lemma NothingLeft(g: Graph, nodes: set<string>, order: seq<string>)
    requires Progress(g, nodes, order, [])
    ensures order == Greedy(g, nodes, {})
  {
    assert Elements([]) == {};
    assert order + [] == order;
  }

  predicate CanSatisfy(indeg: map<string, nat>, ready: seq<string>, dependents: seq<string>) {
    && (forall x | x in dependents :: x in indeg && multiset(dependents)[x] <= indeg[x])
    && NoDup(ready) && (forall x | x in ready :: x in indeg && indeg[x] == 0)
  }

  ghost predicate Satisfied(
      indeg: map<string, nat>, ready: seq<string>, dependents: seq<string>, indeg': map<string, nat>,
      ready': seq<string>)
  {
    && indeg'.Keys == indeg.Keys
    && (forall x | x in indeg :: indeg'[x] + multiset(dependents)[x] == indeg[x])
    && NoDup(ready')
    && (forall x :: x in ready' <==> x in ready || (x in dependents && x in indeg' && indeg'[x] == 0))
  }

  /** How often `x` is among the first `i` entries. */
  function CountUpTo(s: seq<string>, i: nat, x: string): nat
    requires i <= |s|
  {
    if i == 0 then 0 else CountUpTo(s, i - 1, x) + if s[i - 1] == x then 1 else 0
  }

  lemma {:induction false} CountIsMultiplicity(s: seq<string>, i: nat, x: string)
    requires i <= |s|
    ensures CountUpTo(s, i, x) == multiset(s[..i])[x]
  {
    if i > 0 {
      CountIsMultiplicity(s, i - 1, x);
      assert s[..i] == s[..i - 1] + [s[i - 1]];
    }
  }

  lemma {:induction false} CountGrows(s: seq<string>, i: nat, j: nat, x: string)
    requires i <= j <= |s|
    ensures CountUpTo(s, i, x) <= CountUpTo(s, j, x)
  {
    if i < j {
      CountGrows(s, i, j - 1, x);
    }
  }

  /** The first `i` entries have been settled. */
  ghost predicate SatisfiedUpTo(
      indeg: map<string, nat>, ready: seq<string>, dependents: seq<string>, i: nat, indeg': map<string, nat>,
      ready': seq<string>)
    requires i <= |dependents|
  {
    && indeg'.Keys == indeg.Keys && NoDup(ready')
    && (forall x | x in indeg :: indeg'[x] + CountUpTo(dependents, i, x) == indeg[x])
    && (forall x :: x in ready' <==> x in ready || (CountUpTo(dependents, i, x) > 0 && x in indeg' && indeg'[x] == 0))
  }

  lemma NoneSatisfied(indeg: map<string, nat>, ready: seq<string>, dependents: seq<string>)
    requires CanSatisfy(indeg, ready, dependents)
    ensures SatisfiedUpTo(indeg, ready, dependents, 0, indeg, ready)
  {
  }

  /** One entry settled: its count goes down by one, and it is ready if that was the last. */
  function Settled(indeg: map<string, nat>, ready: seq<string>, from: string): (map<string, nat>, seq<string>)
    requires from in indeg && indeg[from] > 0
  {
    (indeg[from := indeg[from] - 1], if indeg[from] == 1 then ready + [from] else ready)
  }

  lemma SatisfyNext(
      indeg: map<string, nat>, ready: seq<string>, dependents: seq<string>, i: nat, indeg': map<string, nat>,
      ready': seq<string>)
    requires CanSatisfy(indeg, ready, dependents) && i < |dependents|
    requires SatisfiedUpTo(indeg, ready, dependents, i, indeg', ready')
    ensures dependents[i] in indeg' && indeg'[dependents[i]] > 0
    ensures var (indeg2, ready2) := Settled(indeg', ready', dependents[i]);
            SatisfiedUpTo(indeg, ready, dependents, i + 1, indeg2, ready2)
  {
    var from := dependents[i];
    assert from in dependents && dependents[..|dependents|] == dependents;
    CountIsMultiplicity(dependents, |dependents|, from);
    CountGrows(dependents, i + 1, |dependents|, from);
    var (indeg2, ready2) := Settled(indeg', ready', from);
    forall x ensures x in ready2 <==> x in ready' || (x == from && indeg2[from] == 0) {
    }
  }

  lemma AllSatisfied(
      indeg: map<string, nat>, ready: seq<string>, dependents: seq<string>, indeg': map<string, nat>,
      ready': seq<string>)
    requires SatisfiedUpTo(indeg, ready, dependents, |dependents|, indeg', ready')
    ensures Satisfied(indeg, ready, dependents, indeg', ready')
  {
    assert dependents[..|dependents|] == dependents;
    forall x ensures CountUpTo(dependents, |dependents|, x) == multiset(dependents)[x] {
      CountIsMultiplicity(dependents, |dependents|, x);
    }
  }

  method SettleOne(indeg: map<string, nat>, ready: seq<string>, from: string)
    returns (indeg': map<string, nat>, ready': seq<string>)
    requires from in indeg && indeg[from] > 0
    ensures (indeg', ready') == Settled(indeg, ready, from)
  {
    indeg', ready' := indeg[from := indeg[from] - 1], ready;
    if indeg'[from] == 0 {
      ready' := ready' + [from];
    }
  }

  /** Decrement the count of every listed dependent, once per entry, and append those that reach zero. */
  method Satisfy(indeg: map<string, nat>, ready: seq<string>, dependents: seq<string>)
    returns (indeg': map<string, nat>, ready': seq<string>)
    requires CanSatisfy(indeg, ready, dependents)
    ensures Satisfied(indeg, ready, dependents, indeg', ready')
  {
    indeg', ready' := indeg, ready;
    NoneSatisfied(indeg, ready, dependents);
    var i := 0;
    while i < |dependents|
      invariant 0 <= i <= |dependents| && SatisfiedUpTo(indeg, ready, dependents, i, indeg', ready')
    {
      SatisfyNext(indeg, ready, dependents, i, indeg', ready');
      indeg', ready' := SettleOne(indeg', ready', dependents[i]);
      i := i + 1;
    }
    AllSatisfied(indeg, ready, dependents, indeg', ready');
  }

  /** The names with no open dependency, met in whatever order the map is ranged over. */
  method InitiallyReady(indeg: map<string, nat>) returns (ready: seq<string>)
    ensures NoDup(ready) && forall x :: x in ready <==> x in indeg && indeg[x] == 0
  {
    ready := [];
    var todo := indeg.Keys;
    while todo != {}
      invariant todo <= indeg.Keys && NoDup(ready)
      invariant forall x :: x in ready <==> x in indeg && x !in todo && indeg[x] == 0
      decreases todo
    {
      var n :| n in todo;
      if indeg[n] == 0 {
        ready := ready + [n];
      }
      todo := todo - {n};
    }
  }

  lemma SortKeepsProgress(g: Graph, nodes: set<string>, order: seq<string>, ready: seq<string>, sorted: seq<string>)
    requires Progress(g, nodes, order, ready) && multiset(sorted) == multiset(ready)
    ensures Progress(g, nodes, order, sorted)
  {
    PermutationKeeps(ready, sorted);
  }
}
