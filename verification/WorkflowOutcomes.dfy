/** How workflow runs end, what a run from scratch keeps while it goes well, and what its failures leave behind. */
module WorkflowOutcomes {
  import opened Names
  import opened WorkflowDefinition
  import opened ClaimRecords
  import opened WorkflowRuns
  import opened WorkflowUndo
  import opened WorkflowBatch
  import opened WorkflowReady

  /** Everything the engine does not decide itself, as a function of how often it has asked. */
  datatype Environment = Environment(
    action: (nat, string) -> Outcome,
    compensator: nat -> Outcome,
    cancelled: nat -> bool,
    lockdown: nat -> bool,
    epoch: (nat, string) -> Option<nat>,
    capable: string -> bool)

  datatype Result =
    | Completion
    | CancelledRun
    | LockedOut(step: string)
    | CapabilityMissing(step: string)
    | NeedsReconciliation(step: string)
    | StepFailed(step: string)
    | NotRetryableFailed(step: string)
    | Uncompensated(stop: Stop)
    | NoReadySteps
    | NotFound

  // ---------- what the environment answers for ----------

  function EpochAt(def: Def, env: Environment, n: string, t: nat): Option<nat>
    requires n in def.steps
  {
    if def.steps[n].resource == "" then None else env.epoch(t, def.steps[n].resource)
  }

  /** The epoch recorded for a step that ran at time `t`. */
  function SeenEpoch(def: Def, env: Environment, n: string, t: nat): nat
    requires n in def.steps
  {
    if EpochAt(def, env, n, t).Some? then EpochAt(def, env, n, t).value else 0
  }

  ghost predicate WasSeen(def: Def, env: Environment, n: string, epoch: nat) {
    n in def.steps && exists t :: epoch == SeenEpoch(def, env, n, t)
  }

  /** The epochs recorded for completed steps are ones their resources had. */
  ghost predicate EpochsSeen(def: Def, env: Environment, cp: Checkpoint) {
    forall n {:trigger WasSeen(def, env, n, cp.Epoch(n))} | n in cp.completed :: WasSeen(def, env, n, cp.Epoch(n))
  }

  /** Somebody cancels: the context ends, or an action reports that it did. */
  ghost predicate Cancels(env: Environment) {
    (exists t :: env.cancelled(t)) || exists t, n :: env.action(t, n).fault == Interrupted
  }

  ghost predicate LocksDown(env: Environment) {
    exists t :: env.lockdown(t)
  }

  /** The event is one the environment answers for at some time. */
  ghost predicate Witnessed(def: Def, env: Environment, e: Event) {
    match e
    case Start(_) => true
    case Finish(n) => exists t :: env.action(t, n).Succeeded()
    case Fail(n, o) => !o.Succeeded() && exists t :: env.action(t, n) == o
    case Undo(n, epoch, ok) =>
      && n in def.steps && (exists t :: EpochAt(def, env, n, t) == epoch)
      && (exists t :: env.compensator(t).Succeeded() == ok)
      && (def.steps[n].mutates ==> exists t :: !env.lockdown(t))
  }

  /** What has happened since `before` is what the environment answers for. */
  ghost predicate Honest(def: Def, env: Environment, before: seq<Event>, log: seq<Event>) {
    forall e {:trigger Witnessed(def, env, e)} | e in log :: e in before || Witnessed(def, env, e)
  }

  lemma HonestNext(def: Def, env: Environment, before: seq<Event>, log: seq<Event>, e: Event)
    requires Honest(def, env, before, log) && Witnessed(def, env, e)
    ensures Honest(def, env, before, log + [e])
  {
    forall x | x in log + [e] && x !in before ensures Witnessed(def, env, x) {
      assert x in log || x == e;
    }
  }

  /** Nothing goes wrong: actions succeed, and nobody cancels, locks down or withholds a capability. */
  ghost predicate AllWell(env: Environment) {
    && (forall t, n :: env.action(t, n).Succeeded())
    && (forall t :: !env.cancelled(t)) && (forall t :: !env.lockdown(t))
    && (forall r :: env.capable(r))
  }

  /** Whatever fails, undoing meets no obstacle: no cancellation, no lockdown, working compensators, epochs at rest. */
  ghost predicate Calm(def: Def, env: Environment) {
    && !Cancels(env) && !LocksDown(env) && (forall t :: env.compensator(t).Succeeded())
    && forall n, t, t' {:trigger EpochAt(def, env, n, t), SeenEpoch(def, env, n, t')} | n in def.steps ::
         EpochAt(def, env, n, t).Some? ==> EpochAt(def, env, n, t).value <= SeenEpoch(def, env, n, t')
  }

  /** The outcomes of a wave so far: none is bad while all is well, or interrupted while nobody cancels. */
  ghost predicate Truthful(env: Environment, w: Wave) {
    (AllWell(env) ==> w.AllGood()) && (Cancels(env) || w.NoneInterrupted())
  }

  lemma StaysTruthful(env: Environment, w: Wave, n: string, o: Outcome)
    requires Truthful(env, w) && (AllWell(env) ==> o.Succeeded()) && (o.fault == Interrupted ==> Cancels(env))
    ensures Truthful(env, w.Skipped(n, o)) && Truthful(env, w.Landed(n, o))
  {
  }

  // ---------- a run from scratch ----------

  /** No action has failed and nothing was undone. */
  ghost predicate Untroubled(log: seq<Event>) {
    Undos(log) == [] && forall e | e in log :: !e.Fail?
  }

  predicate Before(log: seq<Event>, e: Event, f: Event) {
    exists p, q :: 0 <= p < q < |log| && log[p] == e && log[q] == f
  }

  /** Steps of one parallel group; they may have run in one wave, which lists them by name. */
  predicate Mates(def: Def, a: string, b: string) {
    a in def.steps && b in def.steps && def.steps[a].group == def.steps[b].group && def.steps[a].group != ""
  }

  /** What finished before another step started is listed before it, unless they are mates. */
  ghost predicate InCompletionOrder(def: Def, log: seq<Event>, completed: seq<string>) {
    forall i, j :: 0 <= i < j < |completed| && Before(log, Finish(completed[j]), Start(completed[i])) ==>
      Mates(def, completed[i], completed[j])
  }

  /** `n` may be listed next: it is new, comes after its dependencies, and after what it did not run before. */
  ghost predicate Listable(def: Def, log: seq<Event>, completed: seq<string>, n: string) {
    && n !in completed && n in def.steps && (forall d | d in def.steps[n].dependsOn :: d in completed)
    && forall a | a in completed :: Before(log, Finish(n), Start(a)) ==> Mates(def, a, n)
  }

  /** A list of steps, each listed once, after its dependencies, and in completion order. */
  ghost predicate Lawful(def: Def, log: seq<Event>, completed: seq<string>) {
    completed == [] ||
    (var init, last := completed[..|completed| - 1], completed[|completed| - 1];
     Lawful(def, log, init) && Listable(def, log, init, last))
  }

  /** Every completed step is listed once, after its dependencies, and in the order of completion. */
  lemma {:induction false} LawfulMeans(def: Def, log: seq<Event>, completed: seq<string>)
    requires Lawful(def, log, completed)
    ensures NoDup(completed) && DepsEarlier(def, completed) && InCompletionOrder(def, log, completed)
  {
    if completed != [] {
      var init, last := completed[..|completed| - 1], completed[|completed| - 1];
      LawfulMeans(def, log, init);
      assert completed == init + [last];
      DepsEarlierMore(def, init, [last]);
    }
  }

  lemma {:induction false} LawfulKept(def: Def, log: seq<Event>, log': seq<Event>, completed: seq<string>)
    requires Lawful(def, log, completed)
    requires forall a, b {:trigger Before(log', Finish(b), Start(a))} | a in completed && b in completed ::
               Before(log', Finish(b), Start(a)) ==> Before(log, Finish(b), Start(a))
    ensures Lawful(def, log', completed)
  {
    if completed != [] {
      var init, last := completed[..|completed| - 1], completed[|completed| - 1];
      assert forall a | a in init :: a in completed;
      assert last in completed;
      LawfulKept(def, log, log', init);
    }
  }

  lemma LawfulNext(def: Def, log: seq<Event>, completed: seq<string>, n: string)
    requires Lawful(def, log, completed) && Listable(def, log, completed, n)
    ensures Lawful(def, log, completed + [n])
  {
    var all := completed + [n];
    assert all[..|all| - 1] == completed && all[|all| - 1] == n;
  }

  /** Steps that may be listed after what was completed before, together: new mates that ran before none of it. */
  ghost predicate AllListable(def: Def, log: seq<Event>, completed: seq<string>, more: seq<string>) {
    && NoDup(more) && (forall n | n in more :: Listable(def, log, completed, n))
    && forall i, j :: 0 <= i < j < |more| ==> Mates(def, more[i], more[j])
  }

  lemma LastListable(def: Def, log: seq<Event>, completed: seq<string>, init: seq<string>, last: string)
    requires AllListable(def, log, completed, init + [last])
    ensures AllListable(def, log, completed, init) && Listable(def, log, completed + init, last)
  {
    var more := init + [last];
    assert more[|init|] == last && last in more && Listable(def, log, completed, last);
    forall i | 0 <= i < |init| ensures Mates(def, init[i], last) && init[i] != last && init[i] in more {
      assert more[i] == init[i] && Mates(def, more[i], more[|init|]);
    }
    forall i, j | 0 <= i < j < |init| ensures Mates(def, init[i], init[j]) && init[i] != init[j] {
      assert more[i] == init[i] && more[j] == init[j] && Mates(def, more[i], more[j]);
    }
    forall n | n in init ensures Listable(def, log, completed, n) {
      assert n in more;
    }
    forall a | a in completed + init && Before(log, Finish(last), Start(a)) ensures Mates(def, a, last) {
      if a !in completed {
        var i :| 0 <= i < |init| && init[i] == a;
      }
    }
  }

  /** A wave of mates is listed after what was completed before. */
  lemma {:induction false} LawfulMore(def: Def, log: seq<Event>, completed: seq<string>, more: seq<string>)
    requires Lawful(def, log, completed) && AllListable(def, log, completed, more)
    ensures Lawful(def, log, completed + more)
  {
    if more == [] {
      assert completed + more == completed;
    } else {
      var init, last := more[..|more| - 1], more[|more| - 1];
      assert more == init + [last];
      LastListable(def, log, completed, init, last);
      LawfulMore(def, log, completed, init);
      LawfulNext(def, log, completed + init, last);
      assert completed + init + [last] == completed + more;
    }
  }

  /** The completed steps are exactly those whose action finished, lawfully listed. */
  ghost predicate Accounted(def: Def, cp: Checkpoint, log: seq<Event>) {
    && Lawful(def, log, cp.completed)
    && (if cp.dryRun then log == [] else forall n :: Finish(n) in log <==> n in cp.completed)
  }

  /** So far everything succeeded: each completed step was invoked once, and no other was. */
  ghost predicate Fresh(def: Def, cp: Checkpoint, log: seq<Event>) {
    && Accounted(def, cp, log) && Untroubled(log) && Aligned(def, cp)
    && (forall n :: cp.Status(n) == if n in cp.completed then Completed else Pending)
    && (forall n :: Starts(log, n) == if n in cp.completed && !cp.dryRun then 1 else 0)
  }

  /** A failure that leaves it open whether the action took effect, or of a step that asks for reconciliation. */
  predicate Unclear(def: Def, n: string, o: Outcome)
    requires n in def.steps
  {
    o.ambiguous || o.fault == AmbiguousFault || def.steps[n].mode == RequiresReconciliation
  }

  predicate FailsUnclearly(def: Def, n: string, e: Event) {
    e.Fail? && e.step == n && n in def.steps && Unclear(def, n, e.outcome)
  }

  /** A failure that is neither ambiguous nor a cancellation, of a step that may simply fail. */
  predicate Ordinary(def: Def, e: Event) {
    e.Fail? && e.step in def.steps && e.outcome.fault == Plain && !Unclear(def, e.step, e.outcome)
  }

  /** Some action failed, and every failure was an ordinary one. */
  ghost predicate OrdinaryFailure(def: Def, log: seq<Event>) {
    && (exists e :: e in log && e.Fail?)
    && forall e | e in log && e.Fail? :: Ordinary(def, e)
  }

  /** `n` is the first by name of the steps whose action failed. */
  ghost predicate FirstFailed(log: seq<Event>, n: string) {
    && (exists e :: e in log && e.Fail? && e.step == n)
    && forall e | e in log && e.Fail? :: e.step == n || Less(n, e.step)
  }

  predicate Aborts(r: Result) {
    r != Completion && r != NoReadySteps && r != NotFound
  }

  /** The state an instance is left in by each way of ending. */
  predicate Fits(r: Result, state: State) {
    match r
    case Completion => state == StateCompleted
    case CancelledRun => state == StateCancelled
    case LockedOut(_) => state == StateLockedDown
    case CapabilityMissing(_) => state == StateFailed
    case NeedsReconciliation(_) => state == StateRequiresReconciliation
    case StepFailed(_) => state == StateFailed
    case NotRetryableFailed(_) => state == StateFailed
    case Uncompensated(_) => state == StateRequiresIntervention
    case NoReadySteps => false
    case NotFound => false
  }

  predicate Compensates(r: Result) {
    r.StepFailed? || r.NotRetryableFailed? || r.Uncompensated?
  }

  /** Whether a failed step may not simply be tried again later. */
  predicate MayNotRetry(def: Def, hasOperationID: bool, n: string)
    requires n in def.steps
  {
    def.steps[n].mode == NotRetryable || (def.steps[n].mode == RequiresOperationID && !hasOperationID)
  }

  /** A status that leaves it open whether the action took effect, for a step that must not be repeated blindly. */
  predicate MustReconcile(def: Def, n: string, s: Status) {
    s == Reconcile || (s == Running && Unrepeatable(def, n))
  }

  /** A status under which resuming gives up. A step caught while compensating is not among them. */
  predicate Refuses(def: Def, hasOperationID: bool, n: string, s: Status)
    requires n in def.steps
  {
    MustReconcile(def, n, s) || ((s == Failed || s == Running) && MayNotRetry(def, hasOperationID, n))
  }

  /** The position of the first step from `i` on that is not done. */
  function OpenFrom(def: Def, cp: Checkpoint, i: nat): (k: nat)
    requires i <= |def.order|
    ensures i <= k <= |def.order| && (forall j :: i <= j < k ==> Done(cp.Status(def.order[j])))
    ensures k < |def.order| ==> !Done(cp.Status(def.order[k]))
    decreases |def.order| - i
  {
    if i == |def.order| || !Done(cp.Status(def.order[i])) then i else OpenFrom(def, cp, i + 1)
  }

  /** The state of the instance plays no part in it. */
  lemma {:induction false} SameOpen(def: Def, cp: Checkpoint, state: State, i: nat)
    requires i <= |def.order|
    ensures OpenFrom(def, cp.(state := state), i) == OpenFrom(def, cp, i)
    decreases |def.order| - i
  {
    if i < |def.order| {
      SameOpen(def, cp, state, i + 1);
    }
  }

  /** Some step is not done, and the status of the first such step does not keep it from being run. */
  predicate SomeDue(def: Def, hasOperationID: bool, cp: Checkpoint) {
    var k := OpenFrom(def, cp, 0);
    k < |def.order| && def.order[k] in def.steps
    && !Refuses(def, hasOperationID, def.order[k], cp.Status(def.order[k]))
  }

  /** No action but that of `n` failed. */
  predicate OnlyFails(log: seq<Event>, n: string) {
    log == [] || ((log[|log| - 1].Fail? ==> log[|log| - 1].step == n) && OnlyFails(log[..|log| - 1], n))
  }

  /** Without parallel groups only the step after the completed ones can have failed. */
  ghost predicate FailsNext(def: Def, cp: Checkpoint, log: seq<Event>) {
    if |cp.completed| < |def.order| then OnlyFails(log, def.order[|cp.completed|]) else Untroubled(log)
  }

  lemma {:induction false} OnlyFailsMeans(log: seq<Event>, n: string)
    ensures OnlyFails(log, n) <==> forall e | e in log && e.Fail? :: e.step == n
  {
    if log != [] {
      var init, last := log[..|log| - 1], log[|log| - 1];
      OnlyFailsMeans(init, n);
      assert log == init + [last];
    }
  }

  /** What a result says of the environment and the definition is true. */
  ghost predicate Explained(def: Def, env: Environment, hasOperationID: bool, resume: bool, r: Result) {
    match r
    case CancelledRun => Cancels(env)
    case LockedOut(n) => n in def.steps && def.steps[n].mutates && LocksDown(env)
    case CapabilityMissing(n) => n in def.steps && def.steps[n].resource != "" && !env.capable(n)
    case NeedsReconciliation(n) => n in def.steps
    case StepFailed(n) => n in def.steps && !MayNotRetry(def, hasOperationID, n)
    case NotRetryableFailed(n) => n in def.steps && (resume || MayNotRetry(def, hasOperationID, n))
    case Uncompensated(stop) => StopExplained(def, env, stop)
    case _ => true
  }

  ghost predicate StopExplained(def: Def, env: Environment, stop: Stop) {
    match stop
    case ByLockdown(n) => n in def.steps && def.steps[n].mutates && LocksDown(env)
    case ByStaleEpoch(n, current) => n in def.steps && exists t :: EpochAt(def, env, n, t) == Some(current)
    case ByFailure(n) => n in def.steps && exists t :: !env.compensator(t).Succeeded()
  }

  /** How a run from scratch ends when it does not complete. */
  ghost predicate Ended(def: Def, cp: Checkpoint, log: seq<Event>, r: Result) {
    && Accounted(def, cp, log)
    && (r.StepFailed? || r.NotRetryableFailed? ==> Unwound(def, cp, log, None) && FirstFailed(log, r.step))
    && (r.Uncompensated? ==> Unwound(def, cp, log, Some(r.stop)) && exists e :: e in log && e.Fail?)
    && (r.NeedsReconciliation? ==>
          FirstFailed(log, r.step) && exists e :: e in log && FailsUnclearly(def, r.step, e))
    && (r.LockedOut? || r.CapabilityMissing? ==> Untroubled(log))
    && (!Compensates(r) ==> Undos(log) == [])
    && (OrdinaryFailure(def, log) ==> Compensates(r) || r == CancelledRun)
  }

  /** A stop for a stale epoch means that the resource has moved on since the step ran. */
  lemma StaleMeansNewer(def: Def, env: Environment, cp: Checkpoint, log: seq<Event>, n: string, current: nat)
    requires Unwound(def, cp, log, Some(ByStaleEpoch(n, current))) && EpochsSeen(def, env, cp)
    requires StopExplained(def, env, ByStaleEpoch(n, current))
    ensures exists t, t' :: EpochAt(def, env, n, t) == Some(current) && current > SeenEpoch(def, env, n, t')
  {
    var i :| Next(def, cp, i, n) && current > cp.Epoch(n) && UndoneFrom(def, cp, Undos(log), i);
    assert WasSeen(def, env, n, cp.Epoch(n));
  }

  /**
   In a run from scratch whose failures are all ordinary, with nothing in the way of undoing, every compensator of
   a completed step was called, in reverse completion order, and succeeded.
   */
  lemma OrdinaryFailureIsUndone(
      def: Def, env: Environment, hasOperationID: bool, cp: Checkpoint, log: seq<Event>, r: Result)
    requires Ended(def, cp, log, r) && Explained(def, env, hasOperationID, false, r)
    requires Honest(def, env, [], log) && EpochsSeen(def, env, cp)
    requires Calm(def, env) && OrdinaryFailure(def, log)
    ensures r.StepFailed? || r.NotRetryableFailed?
    ensures Unwound(def, cp, log, None) && FirstFailed(log, r.step)
  {
    if r.Uncompensated? {
      match r.stop
      case ByLockdown(n) =>
      case ByStaleEpoch(n, current) => StaleMeansNewer(def, env, cp, log, n, current);
      case ByFailure(n) =>
    }
  }

  // ---------- steps of a run ----------

  lemma SameStatuses(def: Def, cp: Checkpoint, cp': Checkpoint, log: seq<Event>, undoing: set<string>)
    requires Sound(def, cp, log, undoing)
    requires cp'.steps == cp.steps && cp'.completed == cp.completed && cp'.dryRun == cp.dryRun
    ensures Sound(def, cp', log, undoing)
  {
    assert forall n :: cp'.Status(n) == cp.Status(n);
    forall n ensures Shows(def, n, cp'.Status(n), log, undoing) {
      assert Shows(def, n, cp.Status(n), log, undoing);
    }
  }

  lemma SameInAnyState(def: Def, env: Environment, cp: Checkpoint, state: State)
    ensures EpochsSeen(def, env, cp) ==> EpochsSeen(def, env, cp.(state := state))
    ensures Tidy(def, cp) ==> Tidy(def, cp.(state := state))
  {
    var cp' := cp.(state := state);
    assert forall n :: cp'.Epoch(n) == cp.Epoch(n) && cp'.Status(n) == cp.Status(n);
    if Tidy(def, cp) && !HasParallel(def) {
      forall n | cp'.Status(n) == Compensating ensures EarlierDone(def, cp', n) {
        assert EarlierDone(def, cp, n);
      }
    }
  }

  lemma SameEpochs(def: Def, env: Environment, cp: Checkpoint, n: string, s: Status)
    requires EpochsSeen(def, env, cp)
    ensures EpochsSeen(def, env, cp.With(n, s))
  {
    assert forall m :: cp.With(n, s).Epoch(m) == cp.Epoch(m);
  }

  lemma NoneLeftCompensating(def: Def, cp: Checkpoint, n: string, s: Status)
    requires OnlyCompensating(cp, n) && s != Compensating
    ensures NoneCompensating(cp.With(n, s)) && Tidy(def, cp.With(n, s))
  {
    forall m ensures cp.With(n, s).Status(m) != Compensating {
      assert m != n ==> cp.With(n, s).Status(m) == cp.Status(m);
    }
  }

  lemma OneCompensating(def: Def, cp: Checkpoint, n: string)
    requires WellFormed(def) && NoneCompensating(cp) && (HasParallel(def) || EarlierDone(def, cp, n))
    ensures OnlyCompensating(cp.With(n, Compensating), n) && Tidy(def, cp.With(n, Compensating))
  {
    var cp' := cp.With(n, Compensating);
    forall m | m != n ensures cp'.Status(m) == cp.Status(m) {
    }
    EarlierIsIrreflexive(def, n);
  }

  lemma OnlyThisCompensating(cp: Checkpoint, n: string)
    requires NoneCompensating(cp)
    ensures OnlyCompensating(cp.With(n, Compensating), n)
  {
    forall m | m != n ensures cp.With(n, Compensating).Status(m) == cp.Status(m) {
    }
  }

  lemma ListedKeepsSeen(def: Def, env: Environment, cp: Checkpoint, n: string, epoch: nat)
    requires EpochsSeen(def, env, cp) && Tidy(def, cp) && WasSeen(def, env, n, epoch)
    ensures EpochsSeen(def, env, Listed(cp, n, epoch)) && Tidy(def, Listed(cp, n, epoch))
  {
    var cp' := Listed(cp, n, epoch);
    forall m | m in cp'.completed ensures WasSeen(def, env, m, cp'.Epoch(m)) {
      assert m != n ==> WasSeen(def, env, m, cp.Epoch(m));
    }
    if !HasParallel(def) {
      forall m | cp'.Status(m) == Compensating ensures EarlierDone(def, cp', m) {
        assert cp.Status(m) == Compensating && EarlierDone(def, cp, m);
      }
    }
  }

  lemma SameUndone(def: Def, cp: Checkpoint, cp': Checkpoint, undos: seq<Event>, i: nat)
    requires UndoneFrom(def, cp, undos, i)
    requires cp'.completed == cp.completed && cp'.dryRun == cp.dryRun && cp'.epochs == cp.epochs
    requires forall n :: cp'.Status(n) == cp.Status(n)
    ensures UndoneFrom(def, cp', undos, i)
  {
    if !cp.dryRun {
      var plan := Plan(def, cp.completed, i);
      forall j | 0 <= j < |plan| ensures GoodCall(cp', undos[j], plan[j]) {
        assert GoodCall(cp, undos[j], plan[j]);
      }
    }
  }

  /** The instance's state plays no part in what was undone. */
  lemma SameUnwound(def: Def, cp: Checkpoint, state: State, log: seq<Event>, stop: Option<Stop>)
    requires Unwound(def, cp, log, stop)
    ensures Unwound(def, cp.(state := state), log, stop)
  {
    var cp', undos := cp.(state := state), Undos(log);
    match stop
    case None => SameUndone(def, cp, cp', undos, 0);
    case Some(ByLockdown(n)) =>
      var i :| Next(def, cp, i, n) && def.steps[n].mutates && UndoneFrom(def, cp, undos, i);
      SameUndone(def, cp, cp', undos, i);
      assert Next(def, cp', i, n);
    case Some(ByStaleEpoch(n, current)) =>
      var i :| Next(def, cp, i, n) && current > cp.Epoch(n) && UndoneFrom(def, cp, undos, i);
      SameUndone(def, cp, cp', undos, i);
      assert Next(def, cp', i, n);
    case Some(ByFailure(n)) =>
      var i :| FailedAt(def, cp, undos, i, n);
      SameUndone(def, cp.With(n, Completed), cp'.With(n, Completed), undos[..|undos| - 1], i);
      assert FailedAt(def, cp', undos, i, n);
  }

  lemma UndoSucceeds(
      def: Def, cp: Checkpoint, undos: seq<Event>, i: nat, n: string, cp': Checkpoint, undos': seq<Event>)
    requires UndoneFrom(def, cp, undos, i) && Next(def, cp, i, n)
    requires cp' == cp.With(n, Compensating).With(n, Compensated)
    requires if cp.dryRun then undos' == undos else exists e :: undos' == undos + [e] && GoodCall(cp, e, n)
    ensures UndoneFrom(def, cp', undos', i - 1)
  {
    UndoNext(def, cp, undos, i, n, undos');
    SameUndone(def, cp.With(n, Compensated), cp', undos', i - 1);
  }

  lemma UndoFails(
      def: Def, cp: Checkpoint, undos: seq<Event>, i: nat, n: string, cp': Checkpoint, e: Event)
    requires UndoneFrom(def, cp, undos, i) && Next(def, cp, i, n) && cp.Status(n) == Completed && !cp.dryRun
    requires cp' == cp.With(n, Compensating).With(n, Failed) && e.Undo? && e.step == n && !e.ok
    ensures FailedAt(def, cp', undos + [e], i, n)
  {
    assert forall m :: cp'.With(n, Completed).Status(m) == cp.Status(m);
    SameUndone(def, cp, cp'.With(n, Completed), undos, i);
    assert (undos + [e])[..|undos|] == undos;
  }

  /** Compensation only adds compensator calls to the log, none in a dry run. */
  ghost predicate OnlyUndos(log0: seq<Event>, log: seq<Event>, dryRun: bool) {
    && |log0| <= |log| && log[..|log0|] == log0 && (dryRun ==> log == log0)
    && forall k :: |log0| <= k < |log| ==> log[k].Undo?
  }

  lemma OnlyUndosKeep(log0: seq<Event>, log: seq<Event>, dryRun: bool, e: Event)
    requires OnlyUndos(log0, log, dryRun) && !e.Undo?
    ensures e in log <==> e in log0
  {
    if e in log {
      var k :| 0 <= k < |log| && log[k] == e;
      assert k < |log0| ==> log[..|log0|][k] == e;
    }
    if e in log0 {
      var k :| 0 <= k < |log0| && log0[k] == e;
      assert log[..|log0|][k] == log[k];
    }
  }

  /** Compensation leaves alone what was never completed, and everything but statuses. */
  ghost predicate OnlyStatuses(cp0: Checkpoint, cp: Checkpoint) {
    && cp == cp0.(steps := cp.steps, state := cp.state)
    && forall n | n !in cp0.completed :: cp.Status(n) == cp0.Status(n)
  }

  /** After a failed action only compensators are called. */
  lemma UndosComeLater(log0: seq<Event>, n: string, o: Outcome, log: seq<Event>, dryRun: bool)
    requires Untroubled(log0) && OnlyUndos(log0 + [Start(n), Fail(n, o)], log, dryRun)
    ensures OnlyFails(log, n)
  {
    var log1 := log0 + [Start(n), Fail(n, o)];
    forall e | e in log && e.Fail? ensures e.step == n {
      OnlyUndosKeep(log1, log, dryRun, e);
    }
    OnlyFailsMeans(log, n);
  }

  lemma UntroubledMeansOnly(log: seq<Event>, n: string)
    requires Untroubled(log)
    ensures OnlyFails(log, n)
  {
    OnlyFailsMeans(log, n);
  }

  lemma NothingMoved(cp: Checkpoint, log: seq<Event>)
    ensures OnlyStatuses(cp, cp) && OnlyUndos(log, log, cp.dryRun)
  {
    assert log[..|log|] == log;
  }

  lemma OnlyItsStatus(cp: Checkpoint, n: string, s: Status, s': Status)
    requires n in cp.completed
    ensures OnlyStatuses(cp, cp.With(n, s).With(n, s'))
  {
  }

  lemma UndoingOn(
      cp0: Checkpoint, log0: seq<Event>, cp1: Checkpoint, log1: seq<Event>, cp2: Checkpoint, log2: seq<Event>)
    requires OnlyStatuses(cp0, cp1) && OnlyUndos(log0, log1, cp0.dryRun)
    requires OnlyStatuses(cp1, cp2) && OnlyUndos(log1, log2, cp1.dryRun)
    ensures OnlyStatuses(cp0, cp2) && OnlyUndos(log0, log2, cp0.dryRun)
  {
    assert log2[..|log0|] == log2[..|log1|][..|log0|];
    forall k | |log0| <= k < |log2| ensures log2[k].Undo? {
      assert k < |log1| ==> log2[..|log1|][k] == log1[k];
    }
  }

  /** What is true of completions and failures stays true while undoing. */
  lemma UndoKeepsAccount(
      def: Def, cp0: Checkpoint, log0: seq<Event>, cp: Checkpoint, log: seq<Event>, n: string)
    requires Accounted(def, cp0, log0) && FirstFailed(log0, n)
    requires cp.completed == cp0.completed && cp.dryRun == cp0.dryRun && OnlyUndos(log0, log, cp0.dryRun)
    ensures Accounted(def, cp, log) && FirstFailed(log, n)
  {
    forall m ensures Finish(m) in log <==> Finish(m) in log0 {
      OnlyUndosKeep(log0, log, cp0.dryRun, Finish(m));
    }
    forall e: Event | e.Fail? ensures e in log <==> e in log0 {
      OnlyUndosKeep(log0, log, cp0.dryRun, e);
    }
    forall a, b | a in cp.completed && b in cp.completed && Before(log, Finish(b), Start(a))
      ensures Before(log0, Finish(b), Start(a))
    {
      var p, q :| 0 <= p < q < |log| && log[p] == Finish(b) && log[q] == Start(a);
      assert log0[p] == log[..|log0|][p] && log0[q] == log[..|log0|][q];
    }
    LawfulKept(def, log0, log, cp.completed);
  }

  /** Compensation brought to its end, with or without a stop. */
  lemma UnwindingEnds(
      def: Def, cp0: Checkpoint, log0: seq<Event>, cp: Checkpoint, state: State, log: seq<Event>, stop: Option<Stop>,
      failure: Result)
    requires failure.StepFailed? || failure.NotRetryableFailed?
    requires Accounted(def, cp0, log0) && FirstFailed(log0, failure.step) && Unwound(def, cp, log, stop)
    requires cp.completed == cp0.completed && cp.dryRun == cp0.dryRun && OnlyUndos(log0, log, cp0.dryRun)
    ensures Ended(def, cp.(state := state), log, if stop.Some? then Uncompensated(stop.value) else failure)
  {
    SameUnwound(def, cp, state, log, stop);
    UndoKeepsAccount(def, cp0, log0, cp.(state := state), log, failure.step);
  }

  /** The status of a step that was not completed plays no part in what is accounted for. */
  lemma MarkingKeepsAccount(def: Def, cp: Checkpoint, log: seq<Event>, n: string, s: Status)
    requires Unwindable(def, cp, log) && Accounted(def, cp, log) && n !in cp.completed && s != Compensating
    ensures Unwindable(def, cp.With(n, s), log) && Accounted(def, cp.With(n, s), log)
  {
    forall m ensures cp.With(n, s).Status(m) == if m == n then s else cp.Status(m) {
    }
  }

  /** So do the siblings of a failed step. */
  lemma SiblingsKeepAccount(
      def: Def, cp0: Checkpoint, cp: Checkpoint, log: seq<Event>, names: seq<string>, fail: string)
    requires SiblingsFailed(cp0, cp, names, fail) && Unwindable(def, cp0, log) && Accounted(def, cp0, log)
    ensures Unwindable(def, cp, log) && Accounted(def, cp, log)
  {
    assert forall n | n in cp.completed :: cp.Status(n) == cp0.Status(n);
  }

  lemma UnclearEnds(def: Def, cp: Checkpoint, log: seq<Event>, n: string, o: Outcome)
    requires Unwindable(def, cp, log) && Accounted(def, cp, log) && n in def.steps && Unclear(def, n, o)
    requires FirstFailed(log, n) && Fail(n, o) in log
    ensures Ended(def, cp.With(n, Reconcile).(state := StateRequiresReconciliation), log, NeedsReconciliation(n))
  {
    assert FailsUnclearly(def, n, Fail(n, o)) && !Ordinary(def, Fail(n, o));
  }

  // ---------- one step, or one wave, of a run from scratch ----------

  /** While new actions run, nothing changes about the order of those completed before. */
  lemma OrderGoesOn(
      log0: seq<Event>, log: seq<Event>, begun: set<string>, completed: seq<string>, a: string, b: string)
    requires Extends(log0, log, begun) && a in completed && forall n | n in completed :: n !in begun
    requires Before(log, Finish(b), Start(a))
    ensures Before(log0, Finish(b), Start(a)) && Finish(b) in log0
  {
    var p, q :| 0 <= p < q < |log| && log[p] == Finish(b) && log[q] == Start(a);
    assert q < |log0|;
    assert log0[p] == log[..|log0|][p] && log0[q] == log[..|log0|][q];
  }

  lemma AccountGoesOn(
      def: Def, cp: Checkpoint, log0: seq<Event>, log: seq<Event>, begun: set<string>, more: seq<string>)
    requires Accounted(def, cp, log0) && !cp.dryRun && Extends(log0, log, begun)
    requires forall n | n in cp.completed :: n !in begun
    requires AllListable(def, [], cp.completed, more)
    ensures Lawful(def, log, cp.completed + more)
  {
    forall a, b | a in cp.completed && Before(log, Finish(b), Start(a))
      ensures Before(log0, Finish(b), Start(a)) && Finish(b) in log0
    {
      OrderGoesOn(log0, log, begun, cp.completed, a, b);
    }
    LawfulKept(def, log0, log, cp.completed);
    forall n | n in more ensures Listable(def, log, cp.completed, n) {
      assert Listable(def, [], cp.completed, n);
    }
    LawfulMore(def, log, cp.completed, more);
  }

  lemma StartThenEnd(log: seq<Event>, n: string, e: Event)
    ensures log + [Start(n)] + [e] == log + [Start(n), e]
  {
  }

  /** One step done: its action started and finished. */
  lemma StepExtends(log: seq<Event>, n: string, e: Event)
    requires !e.Start? && !e.Undo? && e.step == n
    ensures Extends(log, log + [Start(n), e], {n})
  {
    assert log[..|log|] == log;
    assert Extends(log, log, {});
    ExtendsNext(log, log, {}, Start(n), {n});
    ExtendsNext(log, log + [Start(n)], {n}, e, {n});
    assert log + [Start(n), e] == log + [Start(n)] + [e];
  }

  lemma FreshNext(def: Def, cp: Checkpoint, log: seq<Event>, n: string, cp': Checkpoint, log': seq<Event>)
    requires Fresh(def, cp, log) && n in def.steps && n !in cp.completed
    requires forall d | d in def.steps[n].dependsOn :: Done(cp.Status(d))
    requires WellFormed(def) && (HasParallel(def) || EarlierDone(def, cp, n))
    requires exists epoch :: cp' == Listed(cp.With(n, Running), n, epoch)
    requires log' == log + (if cp.dryRun then [] else [Start(n), Finish(n)])
    ensures Fresh(def, cp', log')
  {
    AlignedNext(def, cp, log, n);
    forall m ensures cp'.Status(m) == if m in cp'.completed then Completed else Pending {
      assert m != n ==> cp'.Status(m) == cp.Status(m);
    }
    AccountedNext(def, cp, log, n, cp', log');
    if cp.dryRun {
      assert log' == log;
    } else {
      AccountNext(log, n);
      StepExtends(log, n, Finish(n));
    }
  }

  lemma NotEarlierMeansLater(def: Def, k: nat, j: nat)
    requires k < |def.order| && j < |def.order| && !Earlier(def, def.order[k], def.order[j])
    ensures j <= k
  {
  }

  /** From scratch and without parallel groups, the step that runs is the next one of the definition. */
  lemma AlignedNext(def: Def, cp: Checkpoint, log: seq<Event>, n: string)
    requires WellFormed(def) && Fresh(def, cp, log) && n in def.steps && n !in cp.completed
    requires HasParallel(def) || EarlierDone(def, cp, n)
    ensures HasParallel(def) || cp.completed + [n] <= def.order
  {
    if !HasParallel(def) {
      var k := |cp.completed|;
      assert n in def.order;
      var j :| 0 <= j < |def.order| && def.order[j] == n;
      forall i | 0 <= i < k ensures def.order[i] != n && (k < |def.order| ==> cp.completed[i] != def.order[k]) {
        assert cp.completed[i] == def.order[i];
      }
      assert k <= j;
      assert def.order[k] !in cp.completed;
      NotEarlierMeansLater(def, k, j);
    }
  }

  lemma AccountedNext(def: Def, cp: Checkpoint, log: seq<Event>, n: string, cp': Checkpoint, log': seq<Event>)
    requires Accounted(def, cp, log) && n in def.steps && n !in cp.completed
    requires forall d | d in def.steps[n].dependsOn :: d in cp.completed
    requires cp'.completed == cp.completed + [n] && cp'.dryRun == cp.dryRun
    requires log' == log + (if cp.dryRun then [] else [Start(n), Finish(n)])
    ensures Accounted(def, cp', log')
  {
    assert Listable(def, [], cp.completed, n);
    if cp.dryRun {
      assert log' == log;
      LawfulNext(def, [], cp.completed, n);
    } else {
      StepExtends(log, n, Finish(n));
      AccountGoesOn(def, cp, log, log', {n}, [n]);
      AccountNext(log, n);
    }
  }

  lemma AccountNext(log: seq<Event>, n: string)
    ensures forall m :: Finish(m) in log + [Start(n), Finish(n)] <==> Finish(m) in log || m == n
    ensures forall e: Event | e.Fail? :: e in log + [Start(n), Finish(n)] <==> e in log
  {
    var log' := log + [Start(n), Finish(n)];
    assert log'[|log| + 1] == Finish(n);
    forall e ensures e in log' <==> e in log || e == Start(n) || e == Finish(n) {
      if e in log {
        var k :| 0 <= k < |log| && log[k] == e;
        assert log'[k] == e;
      }
      assert log'[|log|] == Start(n);
    }
  }

  lemma FreshFails(def: Def, cp: Checkpoint, log: seq<Event>, n: string, o: Outcome, cp': Checkpoint, log': seq<Event>)
    requires Fresh(def, cp, log) && n in def.steps && n !in cp.completed && !o.Succeeded() && !cp.dryRun
    requires cp' == cp.With(n, Running) && log' == log + [Start(n), Fail(n, o)]
    ensures Unwindable(def, cp', log') && Accounted(def, cp', log') && FirstFailed(log', n) && Fail(n, o) in log'
  {
    StepExtends(log, n, Fail(n, o));
    StepFailsFirst(log, n, o);
    FailureKeepsAccount(def, cp, log, n, o, cp', log');
    FreshIsUnwindable(def, cp, log);
    MarkingKeepsAccount(def, cp, log, n, Running);
  }

  lemma FailureKeepsAccount(
      def: Def, cp: Checkpoint, log: seq<Event>, n: string, o: Outcome, cp': Checkpoint, log': seq<Event>)
    requires Accounted(def, cp, log) && n !in cp.completed && !cp.dryRun
    requires cp' == cp.With(n, Running) && log' == log + [Start(n), Fail(n, o)]
    ensures Accounted(def, cp', log')
  {
    StepExtends(log, n, Fail(n, o));
    AccountGoesOn(def, cp, log, log', {n}, []);
    assert cp.completed + [] == cp.completed;
    forall m ensures Finish(m) in log' <==> Finish(m) in log {
      assert log' == log + [Start(n), Fail(n, o)];
    }
  }

  lemma UnwindableInAnyState(def: Def, cp: Checkpoint, log: seq<Event>, state: State)
    requires Unwindable(def, cp, log)
    ensures Unwindable(def, cp.(state := state), log)
  {
    forall n ensures cp.(state := state).Status(n) == cp.Status(n) {
    }
  }

  /** Of a wave in which an action failed, the failed step is still marked running. */
  lemma FailedIsRunning(
      cp0: Checkpoint, cp: Checkpoint, names: seq<string>, outcomes: map<string, Outcome>, epochs: map<string, nat>,
      k: nat)
    requires Ran(cp0, cp, names, outcomes, epochs) && FailsFirst(names, outcomes, k)
    ensures cp.Status(names[k]) == Running && names[k] in names
    ensures forall n | n in names && n !in cp.completed :: cp.Status(n) == Running
  {
    WinnersAre(names, outcomes);
  }

  lemma UntroubledFailsNext(def: Def, cp: Checkpoint, log: seq<Event>)
    requires Untroubled(log)
    ensures FailsNext(def, cp, log)
  {
    if |cp.completed| < |def.order| {
      UntroubledMeansOnly(log, def.order[|cp.completed|]);
    }
  }

  lemma FreshIsUnwindable(def: Def, cp: Checkpoint, log: seq<Event>)
    requires Fresh(def, cp, log)
    ensures Unwindable(def, cp, log)
  {
    LawfulMeans(def, log, cp.completed);
  }

  lemma StepFailsFirst(log: seq<Event>, n: string, o: Outcome)
    requires Untroubled(log) && !o.Succeeded()
    ensures FirstFailed(log + [Start(n), Fail(n, o)], n) && Fail(n, o) in log + [Start(n), Fail(n, o)]
    ensures forall m :: Finish(m) in log + [Start(n), Fail(n, o)] <==> Finish(m) in log
  {
    var log' := log + [Start(n), Fail(n, o)];
    assert log'[|log| + 1] == Fail(n, o) && Fail(n, o).step == n;
    forall e ensures e in log' <==> e in log || e == Start(n) || e == Fail(n, o) {
      assert log'[|log|] == Start(n);
      if e in log {
        var k :| 0 <= k < |log| && log[k] == e;
        assert log'[k] == e;
      }
    }
  }

  lemma SameElements(a: seq<string>, b: seq<string>)
    requires Elements(a) == Elements(b)
    ensures forall n :: n in a <==> n in b
  {
    forall n ensures n in a <==> n in b {
      assert n in Elements(a) <==> n in Elements(b);
    }
  }

  /** The steps of a wave, seen from a run from scratch: new, of one group, with their dependencies completed. */
  ghost predicate NewSteps(def: Def, cp: Checkpoint, names: seq<string>, group: string) {
    && group != ""
    && forall n | n in names ::
         && n in def.steps && n !in cp.completed && def.steps[n].group == group
         && forall d | d in def.steps[n].dependsOn :: d in cp.completed
  }

  lemma AreNewSteps(
      def: Def, cp: Checkpoint, log: seq<Event>, undoing: set<string>, names: seq<string>, group: string)
    requires Fresh(def, cp, log) && forall i :: 0 <= i < |names| ==> CanRun(def, cp, undoing, false, names[i])
    requires group != ""
    requires forall i :: 0 <= i < |names| ==> names[i] in def.steps && def.steps[names[i]].group == group
    ensures NewSteps(def, cp, names, group)
  {
  }

  /** What a wave of a run from scratch leaves: its winners are accounted for. */
  lemma WaveAccounted(
      def: Def, cp0: Checkpoint, log0: seq<Event>, cp: Checkpoint, log: seq<Event>, names: seq<string>, group: string,
      w: Wave, epochs: map<string, nat>)
    requires Accounted(def, cp0, log0) && NewSteps(def, cp0, names, group) && NoDup(names)
    requires Ran(cp0, cp, names, w.outcomes, epochs) && w.outcomes.Keys == Elements(names)
    requires w.Splits(Elements(names)) && Batched(log0, log, w.begun, w.outcomes, cp0.dryRun)
    ensures Accounted(def, cp, log)
    ensures forall n :: n in cp.completed <==> n in cp0.completed || n in Winners(names, w.outcomes)
  {
    var won := Winners(names, w.outcomes);
    WinnersAre(names, w.outcomes);
    forall i, j | 0 <= i < j < |won| ensures Mates(def, won[i], won[j]) {
      assert won[i] in won && won[j] in won;
    }
    if cp0.dryRun {
      LawfulMore(def, [], cp0.completed, won);
    } else {
      WaveInOrder(def, cp0, log0, log, names, group, w);
      forall n ensures Finish(n) in log <==> n in cp.completed {
        WaveFinishes(def, cp0, log0, log, names, w, n);
      }
    }
  }

  lemma WaveInOrder(
      def: Def, cp0: Checkpoint, log0: seq<Event>, log: seq<Event>, names: seq<string>, group: string, w: Wave)
    requires Accounted(def, cp0, log0) && NewSteps(def, cp0, names, group) && !cp0.dryRun && NoDup(names)
    requires w.outcomes.Keys == Elements(names) && w.Splits(Elements(names)) && Extends(log0, log, w.begun)
    ensures Lawful(def, log, cp0.completed + Winners(names, w.outcomes))
  {
    var won := Winners(names, w.outcomes);
    WinnersAre(names, w.outcomes);
    forall n | n in cp0.completed ensures n !in w.begun && n !in won {
      assert n in w.begun ==> n in Elements(names);
    }
    forall i, j | 0 <= i < j < |won| ensures Mates(def, won[i], won[j]) {
      assert won[i] in won && won[j] in won;
    }
    AccountGoesOn(def, cp0, log0, log, w.begun, won);
  }

  lemma WaveFinishes(
      def: Def, cp0: Checkpoint, log0: seq<Event>, log: seq<Event>, names: seq<string>, w: Wave, n: string)
    requires Accounted(def, cp0, log0) && !cp0.dryRun && w.outcomes.Keys == Elements(names)
    requires Batched(log0, log, w.begun, w.outcomes, false)
    ensures Finish(n) in log <==> n in cp0.completed || n in Winners(names, w.outcomes)
  {
    WinnersAre(names, w.outcomes);
    assert n in names <==> n in w.outcomes.Keys;
    if Finish(n) in log {
      assert Told(log0, w.outcomes, Finish(n));
    }
    if n in w.outcomes {
      assert Left(log, w.begun, false, n, w.outcomes[n]);
    }
  }

  lemma WaveStarts(log0: seq<Event>, log: seq<Event>, names: seq<string>, w: Wave, dryRun: bool, n: string)
    requires w.Splits(Elements(names)) && w.outcomes.Keys == Elements(names) && w.AllGood()
    requires Batched(log0, log, w.begun, w.outcomes, dryRun)
    ensures Starts(log, n) == Starts(log0, n) + if n in names && !dryRun then 1 else 0
  {
    assert n in names <==> n in w.outcomes.Keys;
    if n in w.outcomes {
      assert Left(log, w.begun, dryRun, n, w.outcomes[n]);
    }
  }

  lemma WaveSucceeds(
      def: Def, cp0: Checkpoint, log0: seq<Event>, cp: Checkpoint, log: seq<Event>, names: seq<string>, group: string,
      w: Wave, epochs: map<string, nat>)
    requires HasParallel(def) && Fresh(def, cp0, log0) && NewSteps(def, cp0, names, group) && NoDup(names)
    requires w.AllGood()
    requires Ran(cp0, cp, names, w.outcomes, epochs) && w.outcomes.Keys == Elements(names)
    requires w.Splits(Elements(names)) && Batched(log0, log, w.begun, w.outcomes, cp0.dryRun)
    ensures Fresh(def, cp, log)
  {
    WaveAccounted(def, cp0, log0, cp, log, names, group, w, epochs);
    WinnersAll(names, w);
    WaveUntroubled(log0, log, w, cp0.dryRun);
    WaveStatuses(cp0, cp, names, w.outcomes, epochs);
    forall n ensures Starts(log, n) == if n in cp.completed && !cp.dryRun then 1 else 0 {
      WaveStarts(log0, log, names, w, cp0.dryRun, n);
    }
  }

  lemma WaveUntroubled(log0: seq<Event>, log: seq<Event>, w: Wave, dryRun: bool)
    requires Untroubled(log0) && w.AllGood() && Batched(log0, log, w.begun, w.outcomes, dryRun)
    ensures Untroubled(log)
  {
    forall e | e in log ensures !e.Fail? {
      assert Told(log0, w.outcomes, e);
    }
  }

  lemma WaveStatuses(
      cp0: Checkpoint, cp: Checkpoint, names: seq<string>, outcomes: map<string, Outcome>, epochs: map<string, nat>)
    requires Ran(cp0, cp, names, outcomes, epochs) && Winners(names, outcomes) == names
    requires forall n :: cp0.Status(n) == if n in cp0.completed then Completed else Pending
    ensures forall n :: cp.Status(n) == if n in cp.completed then Completed else Pending
  {
  }

  lemma NoFailureIsSuccess(names: seq<string>, w: Wave)
    requires w.outcomes.Keys == Elements(names) && forall i :: 0 <= i < |names| ==> w.outcomes[names[i]].Succeeded()
    ensures w.AllGood()
  {
    forall n | n in w.outcomes ensures w.outcomes[n].Succeeded() {
      assert n in Elements(names);
    }
  }

  lemma WinnersAll(names: seq<string>, w: Wave)
    requires w.outcomes.Keys == Elements(names) && w.AllGood()
    ensures Winners(names, w.outcomes) == names
  {
    forall n | n in names ensures n in w.outcomes {
      assert n in Elements(names);
    }
    AllWinners(names, w.outcomes);
  }

  /** A wave of a run from scratch in which something failed: all is accounted for, and nothing was undone yet. */
  lemma WaveFails(
      def: Def, cp0: Checkpoint, log0: seq<Event>, cp: Checkpoint, log: seq<Event>, names: seq<string>, group: string,
      w: Wave, epochs: map<string, nat>, k: nat)
    requires HasParallel(def) && Fresh(def, cp0, log0) && NewSteps(def, cp0, names, group) && NoDup(names)
    requires Ascending(names)
    requires Ran(cp0, cp, names, w.outcomes, epochs) && w.outcomes.Keys == Elements(names)
    requires w.Splits(Elements(names)) && Batched(log0, log, w.begun, w.outcomes, cp0.dryRun)
    requires FailsFirst(names, w.outcomes, k)
    ensures Unwindable(def, cp, log) && Accounted(def, cp, log) && names[k] !in cp.completed
    ensures w.outcomes[names[k]].fault != Interrupted ==>
              Fail(names[k], w.outcomes[names[k]]) in log && FirstFailed(log, names[k])
  {
    WaveAccounted(def, cp0, log0, cp, log, names, group, w, epochs);
    WaveIsUnwindable(def, cp0, log0, cp, log, names, w, epochs);
    WinnersAre(names, w.outcomes);
    assert names[k] in names;
    if w.outcomes[names[k]].fault != Interrupted {
      WaveFirstFailed(log0, log, names, w, cp0.dryRun, k);
    }
  }

  lemma WaveIsUnwindable(
      def: Def, cp0: Checkpoint, log0: seq<Event>, cp: Checkpoint, log: seq<Event>, names: seq<string>, w: Wave,
      epochs: map<string, nat>)
    requires HasParallel(def) && Fresh(def, cp0, log0) && Ran(cp0, cp, names, w.outcomes, epochs)
    requires Lawful(def, log, cp.completed) && Undos(log) == Undos(log0) && forall n | n in cp0.completed :: n !in names
    ensures Unwindable(def, cp, log)
  {
    LawfulMeans(def, log, cp.completed);
    WinnersAre(names, w.outcomes);
    forall n ensures cp.Status(n) != Compensating {
      assert cp0.Status(n) != Compensating;
    }
  }

  lemma WaveFirstFailed(log0: seq<Event>, log: seq<Event>, names: seq<string>, w: Wave, dryRun: bool, k: nat)
    requires Untroubled(log0) && Ascending(names) && w.outcomes.Keys == Elements(names)
    requires Batched(log0, log, w.begun, w.outcomes, dryRun)
    requires FailsFirst(names, w.outcomes, k) && w.outcomes[names[k]].fault != Interrupted
    ensures Fail(names[k], w.outcomes[names[k]]) in log && FirstFailed(log, names[k])
  {
    var n, o := names[k], w.outcomes[names[k]];
    assert Left(log, w.begun, dryRun, n, o);
    assert Fail(n, o).step == n;
    forall e | e in log && e.Fail? ensures e.step == n || Less(n, e.step) {
      assert Told(log0, w.outcomes, e);
      assert e.step in Elements(names);
      var j :| 0 <= j < |names| && names[j] == e.step;
    }
  }

  /** A round lists some steps of `batch` as completed, by name, after those completed before. */
  ghost predicate AppendsSome(completed0: seq<string>, completed: seq<string>, batch: seq<string>) {
    && completed0 <= completed && Ascending(completed[|completed0|..])
    && forall n | n in completed[|completed0|..] :: n in batch
  }

  lemma AppendsNone(completed: seq<string>, batch: seq<string>)
    ensures AppendsSome(completed, completed, batch)
  {
    assert completed[|completed|..] == [];
  }

  lemma AppendsOne(completed: seq<string>, n: string)
    ensures AppendsSome(completed, completed, [n]) && AppendsSome(completed, completed + [n], [n])
  {
    assert completed[|completed|..] == [] && (completed + [n])[|completed|..] == [n];
  }

  lemma {:induction false} WinnersAscend(names: seq<string>, outcomes: map<string, Outcome>)
    requires Ascending(names)
    ensures Ascending(Winners(names, outcomes))
  {
    if names != [] {
      var init, last := names[..|names| - 1], names[|names| - 1];
      WinnersAscend(init, outcomes);
      WinnersAre(init, outcomes);
      forall x | x in Winners(init, outcomes) ensures x == last || Less(x, last) {
        var i :| 0 <= i < |init| && init[i] == x;
        assert names[i] == x;
      }
    }
  }

  lemma WinnersAppended(
      cp0: Checkpoint, cp: Checkpoint, batch: seq<string>, names: seq<string>, outcomes: map<string, Outcome>,
      epochs: map<string, nat>)
    requires Ran(cp0, cp, names, outcomes, epochs) && Ascending(names) && forall n :: n in names <==> n in batch
    ensures AppendsSome(cp0.completed, cp.completed, batch)
  {
    WinnersAscend(names, outcomes);
    WinnersAre(names, outcomes);
    assert cp.completed[|cp0.completed|..] == Winners(names, outcomes);
  }

  // ---------- the order and the done steps ----------

  /** A position of a topological order: its step is new, and its dependencies come earlier. */
  lemma OrderFacts(def: Def, i: nat)
    requires WellFormed(def) && i < |def.order|
    ensures def.order[i] in def.steps && def.order[i] !in def.order[..i]
    ensures forall d | d in def.steps[def.order[i]].dependsOn :: d in def.order[..i]
    ensures def.order[..i + 1] == def.order[..i] + [def.order[i]]
  {
    assert DepsBefore(def, i);
  }

  lemma EarlierInOrder(def: Def, cp: Checkpoint, i: nat)
    requires WellFormed(def) && i < |def.order| && forall j :: 0 <= j < i ==> Done(cp.Status(def.order[j]))
    ensures EarlierDone(def, cp, def.order[i])
  {
  }

  lemma StaysEarlierDone(def: Def, cp: Checkpoint, n: string, s: Status)
    requires WellFormed(def) && (HasParallel(def) || EarlierDone(def, cp, n))
    ensures HasParallel(def) || EarlierDone(def, cp.With(n, s), n)
  {
    EarlierIsIrreflexive(def, n);
  }

  lemma ListedIsDone(cp: Checkpoint, n: string, epoch: nat)
    ensures forall m :: Done(Listed(cp.With(n, Running), n, epoch).Status(m)) <==> m == n || Done(cp.Status(m))
  {
  }

  lemma AllInOrder(def: Def, cp: Checkpoint)
    requires WellFormed(def) && forall j :: 0 <= j < |def.order| ==> Done(cp.Status(def.order[j]))
    ensures forall n | n in def.steps :: Done(cp.Status(n))
  {
    forall n | n in def.steps ensures Done(cp.Status(n)) {
      assert n in def.order;
    }
  }

  lemma DoneGrows(
      def: Def, cp: Checkpoint, cp': Checkpoint, undoing: set<string>, resume: bool, done: set<string>,
      ready: seq<string>, batch: seq<string>)
    requires WellFormed(def) && Collected(def, cp, undoing, resume, done, ready, |def.order|)
    requires batch != [] && forall n | n in batch :: n in ready
    requires forall n :: Done(cp'.Status(n)) <==> n in batch || Done(cp.Status(n))
    ensures DoneSet(def, cp', done + Elements(batch)) && done < done + Elements(batch)
  {
    assert def.order[..|def.order|] == def.order;
    forall n | n in batch ensures n in def.steps && n !in done {
      var k :| 0 <= k < |ready| && ready[k] == n;
      assert CanRun(def, cp, undoing, resume, ready[k]);
      var j :| 0 <= j < |def.order| && def.order[j] == n;
      assert Placed(def, cp, done, ready, def.order[j]);
    }
    assert batch[0] in batch;
  }

  lemma ProperSubsetSize(a: set<string>, b: set<string>)
    requires a < b
    ensures |a| < |b|
  {
    SubsetSize(a, b);
  }

  lemma AllOfThem(def: Def, cp: Checkpoint, done: set<string>)
    requires WellFormed(def) && DoneSet(def, cp, done) && |done| >= |def.order|
    ensures forall n | n in def.steps :: Done(cp.Status(n))
  {
    NoDupSize(def.order);
    forall n ensures n in done ==> n in Elements(def.order) {
    }
    SubsetSize(done, Elements(def.order));
    forall n | n in def.steps ensures Done(cp.Status(n)) {
      assert n in Elements(def.order);
    }
  }

  lemma FreshInAnyState(def: Def, cp: Checkpoint, state: State, log: seq<Event>)
    ensures Fresh(def, cp, log) ==> Fresh(def, cp.(state := state), log)
  {
    var cp' := cp.(state := state);
    assert forall n :: cp'.Status(n) == cp.Status(n);
  }

  lemma AllCompleted(def: Def, cp: Checkpoint, log: seq<Event>)
    requires Fresh(def, cp, log) && forall n | n in def.steps :: Done(cp.Status(n))
    ensures forall n | n in def.steps :: n in cp.completed && Starts(log, n) == if cp.dryRun then 0 else 1
  {
  }
}
