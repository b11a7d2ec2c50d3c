/** Workflow definitions: step graphs given as dependency lists, in which an entry may be repeated. */
module WorkflowDefinition {
  import opened Names
  import opened Graphs
  import opened Topology
  import C = ClaimRecords

  datatype IdempotencyMode = Idempotent | RequiresOperationID | NotRetryable | RequiresReconciliation

  /** One step. `resource` is empty when the step has no epoch target. */
  datatype StepDef = StepDef(
    dependsOn: seq<string>,
    compensates: bool,
    group: string,
    mode: IdempotencyMode,
    mutates: bool,
    resource: string)

  datatype Error = ErrInvalidDefinition | ErrUnknownStep | ErrCycle

  datatype Built = Definition(steps: map<string, StepDef>, order: seq<string>) | Invalid(err: Error)

  /** The dependency graph: repetitions do not matter to it. */
  function GraphOf(steps: map<string, StepDef>): Graph {
    map n | n in steps :: Elements(steps[n].dependsOn)
  }

  /** The entries of a dependency list that are not done yet, repetitions counted. */
  function OpenEntries(deps: seq<string>, done: set<string>): nat {
    if deps == [] then 0
    else OpenEntries(deps[..|deps| - 1], done) + (if deps[|deps| - 1] in done then 0 else 1)
  }

  lemma {:induction false} OpenEntriesAfter(deps: seq<string>, done: set<string>, n: string)
    requires n !in done
    ensures OpenEntries(deps, done + {n}) + multiset(deps)[n] == OpenEntries(deps, done)
  {
    if deps != [] {
      var init := deps[..|deps| - 1];
      OpenEntriesAfter(init, done, n);
      assert deps == init + [deps[|deps| - 1]];
    }
  }

  lemma {:induction false} NoOpenEntries(deps: seq<string>, done: set<string>)
    ensures OpenEntries(deps, done) == 0 <==> Elements(deps) <= done
    ensures OpenEntries(deps, {}) == |deps|
  {
    if deps != [] {
      var init, last := deps[..|deps| - 1], deps[|deps| - 1];
      NoOpenEntries(init, done);
      assert deps == init + [last];
      assert Elements(deps) == Elements(init) + {last};
    }
  }

  /** `ds` lists the steps depending on `n`, each as often as its dependency list mentions `n`. */
  ghost predicate ListsEntries(steps: map<string, StepDef>, todo: set<string>, n: string, ds: seq<string>) {
    forall x :: multiset(ds)[x] == if x in steps && x !in todo then multiset(steps[x].dependsOn)[n] else 0
  }

  /** Append `name` once per mention of `n` in its dependency list. */
  method AppendEntries(ds: seq<string>, name: string, deps: seq<string>, n: string) returns (ds': seq<string>)
    ensures forall x :: multiset(ds')[x] == multiset(ds)[x] + if x == name then multiset(deps)[n] else 0
  {
    ds' := ds;
    var i := 0;
    while i < |deps|
      invariant 0 <= i <= |deps|
      invariant forall x :: multiset(ds')[x] == multiset(ds)[x] + if x == name then multiset(deps[..i])[n] else 0
    {
      assert deps[..i + 1] == deps[..i] + [deps[i]];
      if deps[i] == n {
        ds' := ds' + [name];
      }
      i := i + 1;
    }
    assert deps[..i] == deps;
  }

  /** The steps that depend on `n`, met in whatever order the map is ranged over. */
  method DependentEntries(steps: map<string, StepDef>, n: string) returns (ds: seq<string>)
    ensures ListsEntries(steps, {}, n, ds)
  {
    ds := [];
    var todo := steps.Keys;
    while todo != {}
      invariant todo <= steps.Keys && ListsEntries(steps, todo, n, ds)
      decreases todo
    {
      var name :| name in todo;
      ds := AppendEntries(ds, name, steps[name].dependsOn, n);
      todo := todo - {name};
    }
  }

  /** Every step's count is the number of its dependency entries that are not placed yet. */
  ghost predicate Counts(steps: map<string, StepDef>, done: set<string>, indeg: map<string, nat>) {
    indeg.Keys == steps.Keys && forall x | x in steps :: indeg[x] == OpenEntries(steps[x].dependsOn, done)
  }

  lemma ZeroMeansReady(steps: map<string, StepDef>, done: set<string>, indeg: map<string, nat>, x: string)
    requires Counts(steps, done, indeg) && x in steps
    ensures indeg[x] == 0 <==> Deps(GraphOf(steps), x) <= done
  {
    NoOpenEntries(steps[x].dependsOn, done);
  }

  lemma EntriesAreDependents(steps: map<string, StepDef>, n: string, ds: seq<string>, x: string)
    requires ListsEntries(steps, {}, n, ds)
    ensures x in ds <==> n in Deps(GraphOf(steps), x)
  {
    assert x in ds <==> multiset(ds)[x] > 0;
    if x in steps {
      assert n in steps[x].dependsOn <==> multiset(steps[x].dependsOn)[n] > 0;
    }
  }

  /** Ready steps have count zero, and a dependent's count allows as many decrements as it is listed. */
  lemma RoundCanSatisfy(
      steps: map<string, StepDef>, order: seq<string>, indeg: map<string, nat>, ready: seq<string>, ds: seq<string>)
    requires Progress(GraphOf(steps), steps.Keys, order, ready) && ready != []
    requires Counts(steps, Elements(order), indeg) && ListsEntries(steps, {}, ready[0], ds)
    ensures ready[0] !in Elements(order) && CanSatisfy(indeg, ready[1..], ds)
  {
    var n, done := ready[0], Elements(order);
    assert n in Elements(ready);
    forall x | x in ds ensures x in indeg && multiset(ds)[x] <= indeg[x] {
      EntriesAreDependents(steps, n, ds, x);
      OpenEntriesAfter(steps[x].dependsOn, done, n);
    }
    forall x | x in ready[1..] ensures x in indeg && indeg[x] == 0 {
      assert x in Elements(ready);
      ZeroMeansReady(steps, done, indeg, x);
    }
  }

  lemma RoundKeepsCounts(
      steps: map<string, StepDef>, order: seq<string>, indeg: map<string, nat>, ready: seq<string>, n: string,
      ds: seq<string>, indeg': map<string, nat>, ready': seq<string>)
    requires n !in Elements(order) && ListsEntries(steps, {}, n, ds)
    requires Counts(steps, Elements(order), indeg) && Satisfied(indeg, ready, ds, indeg', ready')
    ensures Elements(order + [n]) == Elements(order) + {n} && Counts(steps, Elements(order + [n]), indeg')
  {
    assert Elements(order + [n]) == Elements(order) + {n};
    forall x | x in steps ensures indeg'[x] == OpenEntries(steps[x].dependsOn, Elements(order + [n])) {
      OpenEntriesAfter(steps[x].dependsOn, Elements(order), n);
    }
  }

  lemma SatisfiedIsNextReady(
      steps: map<string, StepDef>, order: seq<string>, indeg: map<string, nat>, ready: seq<string>, ds: seq<string>,
      indeg': map<string, nat>, ready': seq<string>)
    requires ready != [] && ListsEntries(steps, {}, ready[0], ds)
    requires Counts(steps, Elements(order) + {ready[0]}, indeg')
    requires Satisfied(indeg, ready[1..], ds, indeg', ready')
    ensures NextReady(GraphOf(steps), steps.Keys, order, ready, ready')
  {
    var g, n, done := GraphOf(steps), ready[0], Elements(order);
    forall x ensures x in ready' <==> x in ready[1..] || (x in steps && n in Deps(g, x) && Deps(g, x) <= done + {n}) {
      EntriesAreDependents(steps, n, ds, x);
      if x in steps {
        ZeroMeansReady(steps, done + {n}, indeg', x);
      }
    }
  }

  /** One round of the loop: place the first ready step and settle its dependents. */
  method PlaceNext(steps: map<string, StepDef>, order: seq<string>, indeg: map<string, nat>, ready: seq<string>)
    returns (order': seq<string>, indeg': map<string, nat>, ready': seq<string>)
    requires Progress(GraphOf(steps), steps.Keys, order, ready) && Ascending(ready) && ready != []
    requires Counts(steps, Elements(order), indeg)
    ensures order' == order + [ready[0]]
    ensures Progress(GraphOf(steps), steps.Keys, order', ready') && Ascending(ready')
    ensures Counts(steps, Elements(order'), indeg')
  {
    var n := ready[0];
    order' := order + [n];
    var unsorted := DependentEntries(steps, n);
    var dependents := SortStrings(unsorted);
    RoundCanSatisfy(steps, order, indeg, ready, dependents);
    var appended;
    indeg', appended := Satisfy(indeg, ready[1..], dependents);
    RoundKeepsCounts(steps, order, indeg, ready[1..], n, dependents, indeg', appended);
    SatisfiedIsNextReady(steps, order, indeg, ready, dependents, indeg', appended);
    PlaceFirst(GraphOf(steps), steps.Keys, order, ready, appended);
    ready' := SortStrings(appended);
    SortKeepsProgress(GraphOf(steps), steps.Keys, order', appended, ready');
  }

  lemma InitialProgress(steps: map<string, StepDef>, indeg: map<string, nat>, ready: seq<string>)
    requires indeg.Keys == steps.Keys && forall x | x in steps :: indeg[x] == |steps[x].dependsOn|
    requires NoDup(ready) && forall x :: x in ready <==> x in indeg && indeg[x] == 0
    ensures Counts(steps, {}, indeg) && Progress(GraphOf(steps), steps.Keys, [], ready)
  {
    var g, nodes := GraphOf(steps), steps.Keys;
    forall x | x in steps ensures indeg[x] == OpenEntries(steps[x].dependsOn, {}) {
      NoOpenEntries(steps[x].dependsOn, {});
    }
    assert Elements([]) == {};
    forall x ensures x in Elements(ready) <==> x in Ready(g, nodes, {}) {
      if x in nodes {
        ZeroMeansReady(steps, {}, indeg, x);
      }
    }
    assert [] + Greedy(g, nodes, {}) == Greedy(g, nodes, {});
  }

  /** Kahn's algorithm over the steps: the greedy order, complete or not. */
  method TopoSteps(steps: map<string, StepDef>) returns (complete: bool, order: seq<string>)
    ensures order == Greedy(GraphOf(steps), steps.Keys, {})
    ensures complete <==> |order| == |steps|
  {
    var indeg: map<string, nat> := map n | n in steps :: |steps[n].dependsOn|;
    var unsorted := InitiallyReady(indeg);
    InitialProgress(steps, indeg, unsorted);
    var ready := SortStrings(unsorted);
    SortKeepsProgress(GraphOf(steps), steps.Keys, [], unsorted, ready);
    order := [];
    assert Elements(order) == {};
    while ready != []
      invariant Progress(GraphOf(steps), steps.Keys, order, ready) && Ascending(ready)
      invariant Counts(steps, Elements(order), indeg)
      decreases |steps.Keys| - |order|
    {
      order, indeg, ready := PlaceNext(steps, order, indeg, ready);
      NoDupWithin(order, steps.Keys);
    }
    NothingLeft(GraphOf(steps), steps.Keys, order);
    complete := |order| == |steps|;
  }

  /** Every dependency names a step. */
  predicate DependenciesKnown(steps: map<string, StepDef>) {
    forall n | n in steps :: Elements(steps[n].dependsOn) <= steps.Keys
  }

  method CheckDependencies(steps: map<string, StepDef>) returns (known: bool)
    ensures known <==> DependenciesKnown(steps)
  {
    var todo := steps.Keys;
    while todo != {}
      invariant todo <= steps.Keys
      invariant forall n | n in steps && n !in todo :: Elements(steps[n].dependsOn) <= steps.Keys
      decreases todo
    {
      var name :| name in todo;
      var deps := steps[name].dependsOn;
      var i := 0;
      while i < |deps|
        invariant 0 <= i <= |deps| && forall k :: 0 <= k < i ==> deps[k] in steps
      {
        if deps[i] !in steps {
          assert deps[i] in Elements(steps[name].dependsOn);
          return false;
        }
        i := i + 1;
      }
      todo := todo - {name};
    }
    return true;
  }

  /** What is wrong with a set of steps: there are none, a dependency is unknown, or there is a cycle. */
  ghost function Fault(steps: map<string, StepDef>): C.Option<Error> {
    if steps == map[] then C.Some(ErrInvalidDefinition)
    else if !DependenciesKnown(steps) then C.Some(ErrUnknownStep)
    else if Cyclic(GraphOf(steps)) then C.Some(ErrCycle)
    else C.None
  }

  /**
   Validate a set of steps. An error recorded by an earlier builder call comes first. Without steps, with an
   unknown dependency, or with a cycle there is no definition either; otherwise its order is the least topological
   order, whatever repetitions there are.
   */
  method Build(recorded: C.Option<Error>, steps: map<string, StepDef>) returns (r: Built)
    ensures recorded.Some? ==> r == Invalid(recorded.value)
    ensures recorded.None? && Fault(steps).Some? ==> r == Invalid(Fault(steps).value)
    ensures recorded.None? && Fault(steps).None? ==> r.Definition?
    ensures r.Definition? ==>
              && r.steps == steps && IsTopological(GraphOf(steps), steps.Keys, r.order)
              && forall other :: IsTopological(GraphOf(steps), steps.Keys, other) ==> LexAtMost(r.order, other)
  {
    if recorded.Some? {
      return Invalid(recorded.value);
    }
    if |steps| == 0 {
      return Invalid(ErrInvalidDefinition);
    }
    var known := CheckDependencies(steps);
    if !known {
      return Invalid(ErrUnknownStep);
    }
    var complete, order := TopoSteps(steps);
    TopoStepsIsLeast(steps);
    if !complete {
      return Invalid(ErrCycle);
    }
    return Definition(steps, order);
  }

  /** The greedy order of the steps is complete exactly without cycles, and then least. */
  lemma TopoStepsIsLeast(steps: map<string, StepDef>)
    requires DependenciesKnown(steps)
    ensures var g, nodes := GraphOf(steps), steps.Keys;
            var o := Greedy(g, nodes, {});
            && (|o| == |nodes| <==> !Cyclic(g))
            && (|o| == |nodes| ==>
                  && IsTopological(g, nodes, o)
                  && (forall other :: IsTopological(g, nodes, other) ==> LexAtMost(o, other)))
  {
    var g, nodes := GraphOf(steps), steps.Keys;
    var o := Greedy(g, nodes, {});
    forall n | n in nodes ensures Within(g, n, nodes) {
    }
    GreedySucceedsIffAcyclic(g, nodes);
    forall other | IsTopological(g, nodes, other) ensures LexAtMost(o, other) {
      GreedyIsLeast(g, nodes, other);
    }
  }

  /** Repeated entries do not matter: definitions with the same dependency sets get the same order. */
  lemma RepetitionsDoNotMatter(steps: map<string, StepDef>, steps': map<string, StepDef>)
    requires steps.Keys == steps'.Keys
    requires forall n | n in steps :: Elements(steps[n].dependsOn) == Elements(steps'[n].dependsOn)
    ensures Greedy(GraphOf(steps), steps.Keys, {}) == Greedy(GraphOf(steps'), steps'.Keys, {})
  {
    assert GraphOf(steps) == GraphOf(steps');
  }
}
