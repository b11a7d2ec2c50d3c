/** Choosing what the parallel executor runs next, and why it is never left without a choice. */
module WorkflowReady {
  import opened Names
  import opened WorkflowRuns

  /**
   `n` is not done but its dependencies are, and an unrepeatable step is unsettled. From scratch `n` is still to
   come. Without parallel groups everything before `n` is done.
   */
  ghost predicate CanRun(def: Def, cp: Checkpoint, undoing: set<string>, resume: bool, n: string) {
    && n in def.steps && !Done(cp.Status(n)) && (forall d | d in def.steps[n].dependsOn :: Done(cp.Status(d)))
    && (HasParallel(def) || EarlierDone(def, cp, n))
    && (Unrepeatable(def, n) && n !in undoing ==> !Settled(def, n, cp.Status(n)))
    && (!resume ==> n !in cp.completed)
  }

  /** `done` are exactly the steps recorded as done. */
  ghost predicate DoneSet(def: Def, cp: Checkpoint, done: set<string>) {
    done <= def.steps.Keys && forall n | n in def.steps :: n in done <==> Done(cp.Status(n))
  }

  predicate GivenUp(s: Status) {
    s == Failed || s == Reconcile
  }

  predicate DepsDone(def: Def, done: set<string>, n: string) {
    n in def.steps && forall i :: 0 <= i < |def.steps[n].dependsOn| ==> def.steps[n].dependsOn[i] in done
  }

  /** A step is ready exactly if it is neither done nor given up and nothing it depends on is missing. */
  predicate Placed(def: Def, cp: Checkpoint, done: set<string>, ready: seq<string>, n: string) {
    n in ready <==> n !in done && !GivenUp(cp.Status(n)) && DepsDone(def, done, n)
  }

  /** The first `i` steps of the order have been looked at. */
  ghost predicate Collected(
      def: Def, cp: Checkpoint, undoing: set<string>, resume: bool, done: set<string>, ready: seq<string>, i: nat)
    requires i <= |def.order|
  {
    && DoneSet(def, cp, done) && NoDup(ready)
    && (forall k :: 0 <= k < |ready| ==> ready[k] in def.order[..i] && CanRun(def, cp, undoing, resume, ready[k]))
    && (forall j :: 0 <= j < i ==> Placed(def, cp, done, ready, def.order[j]))
  }

  lemma CollectedPasses(
      def: Def, cp: Checkpoint, undoing: set<string>, resume: bool, done: set<string>, ready: seq<string>, i: nat)
    requires WellFormed(def) && i < |def.order| && Collected(def, cp, undoing, resume, done, ready, i)
    requires def.order[i] in done || GivenUp(cp.Status(def.order[i])) || !DepsDone(def, done, def.order[i])
    ensures Collected(def, cp, undoing, resume, done, ready, i + 1)
  {
    forall k | 0 <= k < |ready| ensures ready[k] in def.order[..i + 1] && ready[k] != def.order[i] {
      var j :| 0 <= j < |def.order[..i]| && def.order[..i][j] == ready[k];
      assert def.order[..i + 1][j] == ready[k] && def.order[j] == ready[k];
    }
  }

  /** The next step joins the ready ones; its own status may have been reset. */
  lemma CollectedTakes(
      def: Def, cp: Checkpoint, cp': Checkpoint, undoing: set<string>, resume: bool, done: set<string>,
      ready: seq<string>, i: nat)
    requires WellFormed(def) && HasParallel(def) && i < |def.order|
    requires Collected(def, cp, undoing, resume, done, ready, i)
    requires def.order[i] !in done && DepsDone(def, done, def.order[i]) && !GivenUp(cp.Status(def.order[i]))
    requires cp' == cp || cp' == cp.With(def.order[i], Pending)
    requires Unrepeatable(def, def.order[i]) && def.order[i] !in undoing ==>
               !Settled(def, def.order[i], cp'.Status(def.order[i]))
    requires !resume ==> def.order[i] !in cp.completed
    ensures Collected(def, cp', undoing, resume, done, ready + [def.order[i]], i + 1)
  {
    var n, ready' := def.order[i], ready + [def.order[i]];
    assert DepsBefore(def, i) && n in def.order[..i + 1] by {
      assert def.order[..i + 1][i] == n;
    }
    StatusesKept(def, cp, cp', done, n);
    assert CanRun(def, cp', undoing, resume, n);
    forall k | 0 <= k < |ready|
      ensures ready[k] in def.order[..i + 1] && ready[k] != n && CanRun(def, cp', undoing, resume, ready[k])
    {
      var j :| 0 <= j < |def.order[..i]| && def.order[..i][j] == ready[k];
      assert def.order[..i + 1][j] == ready[k] && def.order[j] == ready[k];
    }
    forall j | 0 <= j < i + 1 ensures Placed(def, cp', done, ready', def.order[j]) {
      if j < i {
        assert Placed(def, cp, done, ready, def.order[j]) && def.order[j] != n;
      } else {
        assert ready'[|ready|] == n;
      }
    }
  }

  lemma StatusesKept(def: Def, cp: Checkpoint, cp': Checkpoint, done: set<string>, n: string)
    requires DoneSet(def, cp, done) && n in def.steps && n !in done && (cp' == cp || cp' == cp.With(n, Pending))
    ensures DoneSet(def, cp', done) && cp'.completed == cp.completed
    ensures forall m | m != n :: cp'.Status(m) == cp.Status(m)
    ensures forall m :: Done(cp.Status(m)) ==> Done(cp'.Status(m))
  {
  }

  /** In the order, the first step that is not done has all its dependencies done. */
  lemma {:induction false} FirstOpen(def: Def, done: set<string>, i: nat) returns (k: nat)
    requires WellFormed(def) && i <= |def.order| && (forall j :: 0 <= j < i ==> def.order[j] in done)
    requires exists j :: i <= j < |def.order| && def.order[j] !in done
    ensures k < |def.order| && def.order[k] !in done && DepsDone(def, done, def.order[k])
    decreases |def.order| - i
  {
    if def.order[i] in done {
      k := FirstOpen(def, done, i + 1);
    } else {
      k := i;
      assert DepsBefore(def, i);
      var deps := def.steps[def.order[i]].dependsOn;
      forall m | 0 <= m < |deps| ensures deps[m] in done {
        assert deps[m] in def.order[..i];
      }
    }
  }

  /** With nothing ready, some step has been given up: there is no other way to be stuck. */
  lemma StuckMeansGivenUp(def: Def, cp: Checkpoint, undoing: set<string>, resume: bool, done: set<string>)
    requires WellFormed(def) && Collected(def, cp, undoing, resume, done, [], |def.order|) && |done| < |def.order|
    ensures exists j :: 0 <= j < |def.order| && def.order[j] !in done && GivenUp(cp.Status(def.order[j]))
  {
    if forall j :: 0 <= j < |def.order| ==> def.order[j] in done {
      NoDupWithin(def.order, done);
      assert false;
    }
    var k := FirstOpen(def, done, 0);
    assert Placed(def, cp, done, [], def.order[k]);
  }

  /** The ready steps of one parallel group, in the same order. */
  function InGroup(def: Def, ready: seq<string>, group: string): seq<string> {
    if ready == [] then [] else
      var last := ready[|ready| - 1];
      InGroup(def, ready[..|ready| - 1], group) +
      (if last in def.steps && def.steps[last].group == group then [last] else [])
  }

  lemma {:induction false} GroupMembers(def: Def, ready: seq<string>, group: string)
    ensures forall n ::
              n in InGroup(def, ready, group) <==> n in ready && n in def.steps && def.steps[n].group == group
    ensures NoDup(ready) ==> NoDup(InGroup(def, ready, group))
  {
    if ready != [] {
      var init, last := ready[..|ready| - 1], ready[|ready| - 1];
      GroupMembers(def, init, group);
      assert ready == init + [last];
      assert NoDup(ready) ==> last !in init;
    }
  }

  /** `group` is the smallest name among the groups of the ready steps, or empty if all stand alone. */
  ghost predicate IsSmallestGroup(def: Def, ready: seq<string>, group: string)
    requires forall k :: 0 <= k < |ready| ==> ready[k] in def.steps
  {
    && (group == "" <==> forall k :: 0 <= k < |ready| ==> def.steps[ready[k]].group == "")
    && (group != "" ==> exists k :: 0 <= k < |ready| && def.steps[ready[k]].group == group)
    && forall k :: 0 <= k < |ready| && def.steps[ready[k]].group != "" ==>
         group == def.steps[ready[k]].group || Less(group, def.steps[ready[k]].group)
  }

  method SmallestGroup(def: Def, ready: seq<string>) returns (group: string)
    requires forall k :: 0 <= k < |ready| ==> ready[k] in def.steps
    ensures IsSmallestGroup(def, ready, group)
  {
    group := "";
    var i := 0;
    while i < |ready|
      invariant 0 <= i <= |ready|
      invariant group == "" <==> forall k :: 0 <= k < i ==> def.steps[ready[k]].group == ""
      invariant group != "" ==> exists k :: 0 <= k < i && def.steps[ready[k]].group == group
      invariant forall k :: 0 <= k < i && def.steps[ready[k]].group != "" ==>
                  group == def.steps[ready[k]].group || Less(group, def.steps[ready[k]].group)
    {
      var g := def.steps[ready[i]].group;
      if g != "" && (group == "" || Less(g, group)) {
        forall k | 0 <= k < i && def.steps[ready[k]].group != ""
          ensures g == def.steps[ready[k]].group || Less(g, def.steps[ready[k]].group)
        {
          if group != def.steps[ready[k]].group {
            LessTransitive(g, group, def.steps[ready[k]].group);
          }
        }
        group := g;
      } else if g != "" {
        LessTotal(g, group);
      }
      i := i + 1;
    }
  }

  method Members(def: Def, ready: seq<string>, group: string) returns (batch: seq<string>)
    ensures batch == InGroup(def, ready, group)
  {
    batch := [];
    var i := 0;
    while i < |ready|
      invariant 0 <= i <= |ready| && batch == InGroup(def, ready[..i], group)
    {
      assert ready[..i + 1][..i] == ready[..i];
      if ready[i] in def.steps && def.steps[ready[i]].group == group {
        batch := batch + [ready[i]];
      }
      i := i + 1;
    }
    assert ready[..i] == ready;
  }
}
