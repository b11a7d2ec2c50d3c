/** Undoing a failed run: which compensators are called, in which order, and where that stops. */
module WorkflowUndo {
  import opened Names
  import opened ClaimRecords
  import opened WorkflowRuns

  /** Why compensation stopped short. */
  datatype Stop = ByLockdown(step: string) | ByStaleEpoch(step: string, current: nat) | ByFailure(step: string)

  predicate HasCompensator(def: Def, n: string) {
    n in def.steps && def.steps[n].compensates
  }

  /** The steps of completed[i..] that have a compensator, latest first. */
  function Plan(def: Def, completed: seq<string>, i: nat): seq<string>
    requires i <= |completed|
    decreases |completed| - i
  {
    if i == |completed| then [] else
      Plan(def, completed, i + 1) + (if HasCompensator(def, completed[i]) then [completed[i]] else [])
  }

  lemma {:induction false} PlanCovers(def: Def, completed: seq<string>, i: nat)
    requires i <= |completed|
    ensures forall n :: n in Plan(def, completed, i) <==> n in completed[i..] && HasCompensator(def, n)
    decreases |completed| - i
  {
    if i < |completed| {
      PlanCovers(def, completed, i + 1);
      assert completed[i..] == [completed[i]] + completed[i + 1..];
    }
  }

  /** `a` was completed after `b`. */
  predicate CompletedAfter(completed: seq<string>, a: string, b: string) {
    exists i, j :: 0 <= j < i < |completed| && completed[i] == a && completed[j] == b
  }

  /** The plan goes backwards through the order of completion, and names no step twice. */
  lemma {:induction false} PlanGoesBackwards(def: Def, completed: seq<string>, i: nat, j: nat, k: nat)
    requires i <= |completed| && j < k < |Plan(def, completed, i)| && NoDup(completed)
    ensures CompletedAfter(completed, Plan(def, completed, i)[j], Plan(def, completed, i)[k])
    ensures Plan(def, completed, i)[j] != Plan(def, completed, i)[k]
    decreases |completed| - i
  {
    var rest := Plan(def, completed, i + 1);
    if k < |rest| {
      PlanGoesBackwards(def, completed, i + 1, j, k);
    } else {
      PlanCovers(def, completed, i + 1);
      assert rest[j] in rest;
      var m :| 0 <= m < |completed[i + 1..]| && completed[i + 1..][m] == rest[j];
      assert completed[i + 1 + m] == rest[j] && completed[i] == Plan(def, completed, i)[k];
    }
  }

  /** Every step was completed after its dependencies. */
  ghost predicate DepsEarlier(def: Def, completed: seq<string>) {
    forall i :: 0 <= i < |completed| ==>
      completed[i] in def.steps && forall d | d in def.steps[completed[i]].dependsOn :: d in completed[..i]
  }

  /** Dependents are undone before what they depend on. */
  lemma DependentsGoFirst(def: Def, completed: seq<string>, j: nat, k: nat)
    requires NoDup(completed) && DepsEarlier(def, completed)
    requires j < |Plan(def, completed, 0)| && k < |Plan(def, completed, 0)|
    requires HasCompensator(def, Plan(def, completed, 0)[j])
    requires Plan(def, completed, 0)[k] in def.steps[Plan(def, completed, 0)[j]].dependsOn
    ensures j < k
  {
    var plan := Plan(def, completed, 0);
    PlanCovers(def, completed, 0);
    assert plan[j] in plan && completed[0..] == completed;
    var i :| 0 <= i < |completed| && completed[i] == plan[j];
    assert plan[k] in completed[..i];
    var i' :| 0 <= i' < |completed[..i]| && completed[..i][i'] == plan[k];
    assert completed[i'] == plan[k];
    if k < j {
      PlanGoesBackwards(def, completed, 0, k, j);
    }
  }

  // ---------- the calls made ----------

  function Undos(log: seq<Event>): seq<Event> {
    if log == [] then [] else
      Undos(log[..|log| - 1]) + (if log[|log| - 1].Undo? then [log[|log| - 1]] else [])
  }

  lemma UndosNext(log: seq<Event>, e: Event)
    ensures Undos(log + [e]) == Undos(log) + (if e.Undo? then [e] else [])
  {
    assert (log + [e])[..|log|] == log;
  }

  lemma {:induction false} UndosHappened(log: seq<Event>, e: Event)
    requires e in Undos(log)
    ensures e in log
  {
    var init, last := log[..|log| - 1], log[|log| - 1];
    assert log == init + [last];
    if e != last {
      UndosHappened(init, e);
    }
  }

  /** A successful compensator call for `n`, made while its resource had not moved past the recorded epoch. */
  predicate GoodCall(cp: Checkpoint, e: Event, n: string) {
    e.Undo? && e.step == n && e.ok && (e.epoch.Some? ==> e.epoch.value <= cp.Epoch(n))
  }

  predicate GoodCalls(cp: Checkpoint, undos: seq<Event>, names: seq<string>) {
    |undos| == |names| && forall j :: 0 <= j < |names| ==> GoodCall(cp, undos[j], names[j])
  }

  /** completed[i..] has been undone where there is a compensator; nothing else was touched. */
  ghost predicate UndoneFrom(def: Def, cp: Checkpoint, undos: seq<Event>, i: nat) {
    && i <= |cp.completed|
    && (if cp.dryRun then undos == [] else GoodCalls(cp, undos, Plan(def, cp.completed, i)))
    && forall n | n in cp.completed ::
         cp.Status(n) == if n in Plan(def, cp.completed, i) then Compensated else Completed
  }

  /** The next step to undo, at position i - 1. */
  predicate Next(def: Def, cp: Checkpoint, i: nat, n: string) {
    0 < i <= |cp.completed| && cp.completed[i - 1] == n && HasCompensator(def, n)
  }

  ghost predicate FailedAt(def: Def, cp: Checkpoint, undos: seq<Event>, i: nat, n: string) {
    && Next(def, cp, i, n) && cp.Status(n) == Failed && !cp.dryRun
    && undos != [] && undos[|undos| - 1].Undo? && undos[|undos| - 1].step == n && !undos[|undos| - 1].ok
    && UndoneFrom(def, cp.With(n, Completed), undos[..|undos| - 1], i)
  }

  /**
   What compensation leaves behind. Without a stop every compensator was called, latest completion first. It
   stops at the first step that lockdown blocks, whose resource has moved on, or whose compensator fails.
   */
  ghost predicate Unwound(def: Def, cp: Checkpoint, log: seq<Event>, stop: Option<Stop>) {
    match stop
    case None => UndoneFrom(def, cp, Undos(log), 0)
    case Some(ByLockdown(n)) =>
      exists i :: Next(def, cp, i, n) && def.steps[n].mutates && UndoneFrom(def, cp, Undos(log), i)
    case Some(ByStaleEpoch(n, current)) =>
      exists i :: Next(def, cp, i, n) && current > cp.Epoch(n) && UndoneFrom(def, cp, Undos(log), i)
    case Some(ByFailure(n)) => exists i :: FailedAt(def, cp, Undos(log), i, n)
  }

  /** Without parallel groups the steps have completed in the order of the definition. */
  predicate Aligned(def: Def, cp: Checkpoint) {
    HasParallel(def) || cp.completed <= def.order
  }

  /** A run that has completed some steps, each once, and undone nothing. */
  ghost predicate Unwindable(def: Def, cp: Checkpoint, log: seq<Event>) {
    && NoDup(cp.completed) && Undos(log) == [] && NoneCompensating(cp) && Aligned(def, cp)
    && forall n | n in cp.completed :: cp.Status(n) == Completed
  }

  lemma NothingUndone(def: Def, cp: Checkpoint, log: seq<Event>)
    requires Unwindable(def, cp, log)
    ensures UndoneFrom(def, cp, Undos(log), |cp.completed|)
  {
  }

  lemma SkipsWithoutCompensator(def: Def, cp: Checkpoint, undos: seq<Event>, i: nat)
    requires 0 < i <= |cp.completed| && UndoneFrom(def, cp, undos, i) && !HasCompensator(def, cp.completed[i - 1])
    ensures UndoneFrom(def, cp, undos, i - 1)
  {
    assert Plan(def, cp.completed, i - 1) == Plan(def, cp.completed, i);
  }

  /** The step at position i - 1 has not been undone yet. */
  lemma NextIsCompleted(def: Def, cp: Checkpoint, undos: seq<Event>, i: nat, n: string)
    requires NoDup(cp.completed) && UndoneFrom(def, cp, undos, i) && Next(def, cp, i, n)
    ensures cp.Status(n) == Completed && n !in Plan(def, cp.completed, i)
  {
    PlanCovers(def, cp.completed, i);
  }

  /** What comes before the next step to undo has not been touched. */
  lemma NextIsLast(def: Def, cp: Checkpoint, undos: seq<Event>, i: nat, n: string)
    requires WellFormed(def) && Aligned(def, cp) && UndoneFrom(def, cp, undos, i) && Next(def, cp, i, n)
    ensures HasParallel(def) || EarlierDone(def, cp, n)
  {
    if !HasParallel(def) {
      forall m | Earlier(def, m, n) ensures Done(cp.Status(m)) {
        var k, j :| 0 <= k < j < |def.order| && def.order[k] == m && def.order[j] == n;
        assert def.order[i - 1] == cp.completed[i - 1] && j == i - 1;
        assert cp.completed[k] == m;
      }
    }
  }

  /** One more successful call. */
  lemma UndoNext(def: Def, cp: Checkpoint, undos: seq<Event>, i: nat, n: string, undos': seq<Event>)
    requires UndoneFrom(def, cp, undos, i) && Next(def, cp, i, n)
    requires if cp.dryRun then undos' == undos
             else |undos'| == |undos| + 1 && undos'[..|undos|] == undos && GoodCall(cp, undos'[|undos|], n)
    ensures UndoneFrom(def, cp.With(n, Compensated), undos', i - 1)
  {
    var cp', plan := cp.With(n, Compensated), Plan(def, cp.completed, i);
    assert Plan(def, cp.completed, i - 1) == plan + [n];
    if !cp.dryRun {
      forall j | 0 <= j < |plan + [n]| ensures GoodCall(cp', undos'[j], (plan + [n])[j]) {
        if j < |plan| {
          assert undos'[j] == undos[j] && GoodCall(cp, undos[j], plan[j]);
        }
      }
    }
    forall m | m in cp'.completed ensures cp'.Status(m) == if m in plan + [n] then Compensated else Completed {
      assert m != n ==> cp'.Status(m) == cp.Status(m);
    }
  }
}
