/**
 The other half of the law on repeated steps. Without parallel groups, every step that may come to be undone is
 started twice by some two processes: the first crashes while the step is stored as compensating, and the second
 starts it again when it resumes.
 */
module WorkflowRestart {
  import opened ClaimRecords
  import opened WorkflowDefinition
  import opened WorkflowRuns
  import opened WorkflowUndo
  import opened WorkflowBatch
  import opened WorkflowOutcomes
  import opened WorkflowGuards
  import opened WorkflowEngine

  /** Nothing goes wrong, except that the action of `b` always fails in an ordinary way. */
  function Failing(b: string): Environment {
    Environment(
      (t, n) => if n == b then Outcome(Plain, false) else OK,
      t => OK, t => false, t => false, (t, r) => None, r => true)
  }

  const FINE := Environment((t, n) => OK, t => OK, t => false, t => false, (t, r) => None, r => true)

  /** A process dies here: `a` was started and is stored as compensating. */
  predicate Caught(a: string, d: Durable) {
    StoredAs(d, a, Compensating) && !d.stored.value.dryRun && Starts(d.log, a) > 0
  }

  /** The failures of such a run are ordinary ones of `b`. */
  lemma OnlyItFails(def: Def, b: string, log: seq<Event>)
    requires b in def.steps && def.steps[b].mode != RequiresReconciliation
    requires Honest(def, Failing(b), [], log)
    ensures Finish(b) !in log
    ensures forall e | e in log && e.Fail? :: e.step == b && Ordinary(def, e)
  {
    var env := Failing(b);
    assert !Witnessed(def, env, Finish(b));
    forall e | e in log && e.Fail? ensures e.step == b && Ordinary(def, e) {
      assert Witnessed(def, env, e);
    }
  }

  /** A run from scratch in which the action of `b` always fails. */
  ghost predicate FailedRun(def: Def, b: string, cp: Checkpoint, log: seq<Event>, r: Result) {
    && Honest(def, Failing(b), [], log) && log != []
    && Fits(r, cp.state) && Explained(def, Failing(b), false, false, r)
    && (r == Completion ==> Accounted(def, cp, log) && b in cp.completed)
    && (r != Completion ==> Ended(def, cp, log, r))
    && cp.completed <= def.order && FailsNext(def, cp, log)
    && (OrdinaryFailure(def, log) ==> Unwound(def, cp, log, None))
  }

  lemma ItFails(def: Def, b: string, cp: Checkpoint, log: seq<Event>, r: Result)
    requires b in def.steps && def.steps[b].mode != RequiresReconciliation && FailedRun(def, b, cp, log, r)
    ensures OrdinaryFailure(def, log) && !cp.dryRun
  {
    OnlyItFails(def, b, log);
    assert !Cancels(Failing(b)) && !LocksDown(Failing(b));
  }

  /** What comes before `b` was completed. */
  lemma EarlierCompleted(def: Def, a: string, b: string, cp: Checkpoint, log: seq<Event>, r: Result)
    requires WellFormed(def) && b in def.steps && def.steps[b].mode != RequiresReconciliation && Earlier(def, a, b)
    requires FailedRun(def, b, cp, log, r)
    ensures a in cp.completed
  {
    ItFails(def, b, cp, log, r);
    OnlyItFails(def, b, log);
    var k := |cp.completed|;
    var e :| e in log && e.Fail?;
    OnlyFailsMeans(log, def.order[k]);
    assert e.step == b == def.order[k];
    var i, j :| 0 <= i < j < |def.order| && def.order[i] == a && def.order[j] == b;
    assert j == k && cp.completed[i] == def.order[i];
  }

  /** So its compensator was called. */
  lemma EarlierUndone(def: Def, a: string, b: string, cp: Checkpoint, log: seq<Event>, r: Result)
    requires WellFormed(def) && b in def.steps && def.steps[b].mode != RequiresReconciliation && Earlier(def, a, b)
    requires HasCompensator(def, a) && FailedRun(def, b, cp, log, r)
    ensures exists p :: 0 <= p < |log| && log[p].Undo? && log[p].step == a
  {
    ItFails(def, b, cp, log, r);
    EarlierCompleted(def, a, b, cp, log, r);
    PlanCovers(def, cp.completed, 0);
    var plan := Plan(def, cp.completed, 0);
    assert a in cp.completed[0..] && a in plan;
    var j :| 0 <= j < |plan| && plan[j] == a;
    assert GoodCall(cp, Undos(log)[j], plan[j]);
    UndosHappened(log, Undos(log)[j]);
  }

  /** And the step was caught at it. */
  lemma CaughtSomewhere(def: Def, ds: seq<Durable>, a: string, p: nat)
    requires Chain(def, ds) && ds[0] == FIRST && p < |ds[|ds| - 1].log|
    requires ds[|ds| - 1].log[p].Undo? && ds[|ds| - 1].log[p].step == a
    ensures exists i :: 0 <= i < |ds| && Caught(a, ds[i])
  {
    var log := ds[|ds| - 1].log;
    EventsWereOnRecord(def, ds, p);
    var i :| 0 <= i < |ds| && ds[i].log == log[..p] && OnRecord(ds[i], log[p]);
    ChainIs(def, ds);
    UndoneWasStarted(def, log, p);
    assert Caught(a, ds[i]);
  }

  lemma FailingIsCalm(def: Def, b: string)
    ensures Calm(def, Failing(b)) && forall r :: Failing(b).capable(r)
  {
  }

  /** A run from scratch starts something. */
  lemma SomethingStarts(e: Engine)
    requires WellFormed(e.def) && e.def.order != [] && e.first == FIRST && e.Minded()
    requires e.GetsOn(Checkpoint(StateCreated, map[], [], map[], false))
    ensures e.log != []
  {
    OrderFacts(e.def, 0);
    NotedMeansStarted([], e.log, e.checks, e.def.order[0]);
  }

  /** A history from scratch that ends where `a` is caught, with everything before `a` done. */
  ghost predicate EndsCaught(def: Def, a: string, ds: seq<Durable>) {
    && FromScratch(def, ds) && Caught(a, ds[|ds| - 1])
    && EarlierDone(def, ds[|ds| - 1].stored.value, a)
  }

  lemma IsFailedRun(e: Engine, b: string, r: Result)
    requires b in e.def.steps && !HasParallel(e.def) && e.env == Failing(b) && e.first == FIRST && e.log != []
    requires e.Traced() && e.EndsFromScratch(r) && Fits(r, e.inst.state) && Explained(e.def, e.env, false, false, r)
    ensures FailedRun(e.def, b, e.inst, e.log, r)
  {
    FailingIsCalm(e.def, b);
  }

  lemma ItIsCaught(e: Engine, a: string, b: string, r: Result)
    requires WellFormed(e.def) && HasCompensator(e.def, a) && Earlier(e.def, a, b)
    requires b in e.def.steps && e.def.steps[b].mode != RequiresReconciliation
    requires e.first == FIRST && e.Traced() && FailedRun(e.def, b, e.inst, e.log, r)
    ensures exists i :: 0 <= i < |e.trace| && Caught(a, e.trace[i])
  {
    EarlierUndone(e.def, a, b, e.inst, e.log, r);
    var q :| 0 <= q < |e.log| && e.log[q].Undo? && e.log[q].step == a;
    CaughtSomewhere(e.def, e.trace, a, q);
  }

  /** A process that crashes where `a` is caught leaves a history that ends there. */
  lemma {:induction false} DiesThere(def: Def, ds: seq<Durable>, a: string, p: Process)
    requires Chain(def, ds) && AllTidy(def, ds) && ds[0] == FIRST && !HasParallel(def)
    requires forall i, d :: p.crashes(i, d) <==> Caught(a, d)
    requires exists i :: 0 <= i < |ds| && Caught(a, ds[i])
    ensures EndsCaught(def, a, ds[..Survived(p, ds, 0)])
  {
    var k := Survived(p, ds, 0);
    assert Caught(a, ds[k - 1]) by {
      var i :| 0 <= i < |ds| && Caught(a, ds[i]);
      assert p.crashes(i, ds[i]);
    }
    ChainPrefix(def, ds, k);
    AllTidyAt(def, ds, k - 1);
  }

  /** The first process: the action of `b`, a step after `a`, fails, and the process dies while it undoes `a`. */
  method DieWhileUndoing(def: Def, a: string, b: string) returns (trace: seq<Durable>)
    requires WellFormed(def) && !HasParallel(def) && HasCompensator(def, a) && Earlier(def, a, b)
    requires b in def.steps && def.steps[b].mode != RequiresReconciliation
    ensures EndsCaught(def, a, trace)
  {
    var p := Process(Failing(b), 1, false, (i, d) => Caught(a, d));
    ghost var e, r;
    ChainIs(def, [FIRST]);
    trace, e, r := Lifetime(def, p, false, FIRST, false);
    FailingIsCalm(def, b);
    SomethingStarts(e);
    IsFailedRun(e, b, r);
    ItIsCaught(e, a, b, r);
    DiesThere(def, e.trace, a, p);
  }

  /** Where `a` is caught, it is the first step that is due. */
  lemma CaughtIsDue(def: Def, cp: Checkpoint, a: string, hasOperationID: bool)
    requires WellFormed(def) && a in def.steps && cp.Status(a) == Compensating && EarlierDone(def, cp, a)
    ensures SomeDue(def, hasOperationID, cp) && def.order[OpenFrom(def, cp, 0)] == a
  {
    assert a in def.order;
    var i :| 0 <= i < |def.order| && def.order[i] == a;
    var k := OpenFrom(def, cp, 0);
    assert k <= i;
    if k < i {
      assert Earlier(def, def.order[k], a);
    }
  }

  /** A history from scratch in which `a` was started more than once. */
  ghost predicate Repeats(def: Def, a: string, history: seq<Durable>) {
    FromScratch(def, history) && Starts(history[|history| - 1].log, a) > 1
  }

  /** The second process resumes where the first one died, and starts `a` again. */
  method ResumeAfter(def: Def, a: string, trace: seq<Durable>) returns (history: seq<Durable>)
    requires WellFormed(def) && !HasParallel(def) && a in def.steps && EndsCaught(def, a, trace)
    ensures Repeats(def, a, history)
  {
    var d := trace[|trace| - 1];
    ChainIs(def, trace);
    var more;
    ghost var e, r;
    more, e, r := Lifetime(def, Process(FINE, 1, false, (i, d) => false), true, d, false);
    CaughtIsDue(def, d.stored.value, a, false);
    NotedMeansStarted(d.log, e.log, e.checks, a);
    ChainGoesOn(def, trace, more);
    history := trace + more[1..];
    assert history[|history| - 1] == more[|more| - 1];
  }

  /**
   Without parallel groups, every step that has a compensator and comes before a step that does not ask for
   reconciliation is started twice by some two processes.
   */
  method StartedTwice(def: Def, a: string) returns (history: seq<Durable>)
    requires WellFormed(def) && !HasParallel(def) && MayBeUndone(def, a)
    ensures Repeats(def, a, history)
  {
    var b :| b in def.steps && Earlier(def, a, b) && def.steps[b].mode != RequiresReconciliation;
    var trace := DieWhileUndoing(def, a, b);
    history := ResumeAfter(def, a, trace);
  }
}
