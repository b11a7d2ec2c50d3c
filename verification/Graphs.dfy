/** Dependency graphs: `g[n]` is the set of names that `n` depends on. Paths and cycles. */
module Graphs {
  import opened Names

  type Graph = map<string, set<string>>

  function Deps(g: Graph, n: string): set<string> {
    if n in g then g[n] else {}
  }

  /** A walk along dependencies: every name depends on the next one. */
  predicate Path(g: Graph, p: seq<string>) {
    && p != []
    && forall i :: 0 <= i < |p| - 1 ==> p[i + 1] in Deps(g, p[i])
  }

  ghost predicate Joins(g: Graph, p: seq<string>, from: string, to: string) {
    Path(g, p) && p[0] == from && p[|p| - 1] == to
  }

  /** There is a path, possibly of no steps, from `from` to `to`. */
  ghost predicate Reaches(g: Graph, from: string, to: string) {
    exists p :: Joins(g, p, from, to)
  }

  predicate Cycle(g: Graph, p: seq<string>) {
    Path(g, p) && |p| > 1 && p[0] == p[|p| - 1]
  }

  ghost predicate Cyclic(g: Graph) {
    exists p :: Cycle(g, p)
  }

  /** Every name that occurs in the graph. */
  function Endpoints(g: Graph): set<string> {
    g.Keys + (set f, t | f in g && t in g[f] :: t)
  }

  lemma ReachesSelf(g: Graph, n: string)
    ensures Reaches(g, n, n)
  {
    assert Joins(g, [n], n, n);
  }

  lemma ReachesStep(g: Graph, a: string, b: string, c: string)
    requires b in Deps(g, a) && Reaches(g, b, c)
    ensures Reaches(g, a, c)
  {
    var p :| Joins(g, p, b, c);
    assert Joins(g, [a] + p, a, c);
  }

  lemma ReachesTransitive(g: Graph, a: string, b: string, c: string)
    requires Reaches(g, a, b) && Reaches(g, b, c)
    ensures Reaches(g, a, c)
  {
    var p :| Joins(g, p, a, b);
    var q :| Joins(g, q, b, c);
    var r := p + q[1..];
    forall i | 0 <= i < |r| - 1 ensures r[i + 1] in Deps(g, r[i]) {
      if i < |p| - 1 {
        assert p[i + 1] in Deps(g, p[i]);
      } else {
        assert q[i - |p| + 2] in Deps(g, q[i - |p| + 1]);
      }
    }
    assert Joins(g, r, a, c);
  }

  /** A name that can come back to itself through one of its dependencies lies on a cycle. */
  lemma ComeBackIsCycle(g: Graph, a: string, b: string)
    requires b in Deps(g, a) && Reaches(g, b, a)
    ensures Cyclic(g)
  {
    var p :| Joins(g, p, b, a);
    assert Cycle(g, [a] + p);
  }

  /** Fewer dependencies never create a path. */
  lemma SubgraphPath(g: Graph, h: Graph, p: seq<string>)
    requires forall n :: Deps(g, n) <= Deps(h, n)
    requires Path(g, p)
    ensures Path(h, p)
  {
  }

  // ---------- a set in which everything waits for something contains a cycle ----------

  /** `n` depends on something in `s`. */
  predicate Waits(g: Graph, n: string, s: set<string>) {
    exists d :: d in Deps(g, n) && d in s
  }

  predicate Stuck(g: Graph, s: set<string>) {
    forall n {:trigger Waits(g, n, s)} | n in s :: Waits(g, n, s)
  }

  lemma PathExtends(g: Graph, p: seq<string>, next: string)
    requires Path(g, p) && next in Deps(g, p[|p| - 1])
    ensures Path(g, p + [next])
  {
  }

  lemma PathSuffix(g: Graph, p: seq<string>, i: nat)
    requires Path(g, p) && i < |p|
    ensures Path(g, p[i..])
  {
    var q := p[i..];
    forall k | 0 <= k < |q| - 1 ensures q[k + 1] in Deps(g, q[k]) {
      assert p[i + k + 1] in Deps(g, p[i + k]);
    }
  }

  lemma {:induction false} StuckSetHasCycle(g: Graph, s: set<string>, p: seq<string>)
    requires Stuck(g, s) && Path(g, p) && NoDup(p) && Elements(p) <= s
    ensures Cyclic(g)
    decreases |s| - |p|
  {
    NoDupWithin(p, s);
    var last := p[|p| - 1];
    assert last in Elements(p) && Waits(g, last, s);
    var next :| next in Deps(g, last) && next in s;
    var q := p + [next];
    PathExtends(g, p, next);
    if next in p {
      var i :| 0 <= i < |p| && p[i] == next;
      PathSuffix(g, q, i);
      assert Cycle(g, q[i..]);
    } else {
      assert NoDup(q) && Elements(q) == Elements(p) + {next};
      NoDupWithin(q, s);
      StuckSetHasCycle(g, s, q);
    }
  }

  // ---------- adding one dependency ----------

  function WithEdge(g: Graph, from: string, to: string): Graph {
    g[from := Deps(g, from) + {to}]
  }

  /** A path from `to` to `from` need not use the new edge: stop at the first visit to `from`. */
  lemma {:induction false} PathAvoidsNewEdge(g: Graph, from: string, to: string, p: seq<string>)
    requires Path(WithEdge(g, from, to), p) && p[|p| - 1] == from
    ensures Reaches(g, p[0], from)
    decreases |p|
  {
    if p[0] == from {
      ReachesSelf(g, from);
    } else {
      var h := WithEdge(g, from, to);
      assert p[1] in Deps(h, p[0]);
      PathSuffix(h, p, 1);
      PathAvoidsNewEdge(g, from, to, p[1..]);
      ReachesStep(g, p[0], p[1], from);
    }
  }

  /** Turn a closed walk around so that it starts at position `k`. */
  lemma RotateCycle(g: Graph, c: seq<string>, k: nat)
    requires Cycle(g, c) && k < |c| - 1
    ensures Joins(g, c[k + 1..] + c[1..k + 1], c[k + 1], c[k])
  {
    var r := c[k + 1..] + c[1..k + 1];
    forall i | 0 <= i < |r| - 1 ensures r[i + 1] in Deps(g, r[i]) {
      var cut := |c| - k - 1;
      if i + 1 < cut {
        assert c[k + 1 + i + 1] in Deps(g, c[k + 1 + i]);
      } else if i + 1 == cut {
        assert c[1] in Deps(g, c[0]);
      } else {
        assert c[1 + i + 1 - cut] in Deps(g, c[1 + i - cut]);
      }
    }
  }

  /** A new dependency closes a cycle exactly when its target already leads back to its source. */
  lemma NewEdgeClosesCycle(g: Graph, from: string, to: string)
    requires !Cyclic(g)
    ensures Cyclic(WithEdge(g, from, to)) <==> Reaches(g, to, from)
  {
    var h := WithEdge(g, from, to);
    if Reaches(g, to, from) {
      var p :| Joins(g, p, to, from);
      SubgraphPath(g, h, p);
      assert Joins(h, p, to, from);
      ComeBackIsCycle(h, from, to);
    }
    if Cyclic(h) {
      var c :| Cycle(h, c);
      if k :| 0 <= k < |c| - 1 && c[k] == from && c[k + 1] == to {
        RotateCycle(h, c, k);
        PathAvoidsNewEdge(g, from, to, c[k + 1..] + c[1..k + 1]);
      } else {
        forall i | 0 <= i < |c| - 1 ensures c[i + 1] in Deps(g, c[i]) {
          assert c[i + 1] in Deps(h, c[i]);
        }
        assert Cycle(g, c);
      }
    }
  }
}
