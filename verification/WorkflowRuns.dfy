/** Checkpoints, what the outside world sees of a workflow, and what every moment of a run satisfies. */
module WorkflowRuns {
  import opened Names
  import opened Graphs
  import opened Topology
  import opened WorkflowDefinition
  import opened ClaimRecords

  datatype Def = Def(steps: map<string, StepDef>, order: seq<string>)

  /** The order lists every step once, after its dependencies. */
  ghost predicate WellFormed(def: Def) {
    && NoDup(def.order) && (forall n {:trigger n in def.order} :: n in def.order <==> n in def.steps)
    && forall i :: 0 <= i < |def.order| ==> DepsBefore(def, i)
  }

  predicate DepsBefore(def: Def, i: nat)
    requires i < |def.order|
  {
    def.order[i] in def.steps && forall d | d in def.steps[def.order[i]].dependsOn :: d in def.order[..i]
  }

  /** What the builder returns can be run. */
  lemma BuiltIsWellFormed(steps: map<string, StepDef>, order: seq<string>)
    requires IsTopological(GraphOf(steps), steps.Keys, order)
    ensures WellFormed(Def(steps, order))
  {
    var def := Def(steps, order);
    forall n ensures n in order <==> n in steps {
      assert n in Elements(order) <==> n in steps.Keys;
    }
    forall i | 0 <= i < |order| ensures DepsBefore(def, i) {
      forall d | d in steps[order[i]].dependsOn ensures d in order[..i] {
        assert d in Deps(GraphOf(steps), order[i]);
        assert d in Elements(order[..i]);
      }
    }
  }

  datatype Status = Pending | Running | Completed | Failed | Compensating | Compensated | Skipped | Reconcile

  datatype State =
    | StateCreated | StateValidating | StateRunning | StateCompleted | StateFailed | StateCancelled | StateLockedDown
    | StateCompensating | StateRequiresIntervention | StateRequiresReconciliation

  /** Durable progress. A step without an entry is pending. */
  datatype Checkpoint = Checkpoint(
    state: State, steps: map<string, Status>, completed: seq<string>, epochs: map<string, nat>, dryRun: bool)
  {
    function Status(n: string): Status {
      if n in steps then steps[n] else Pending
    }

    function With(n: string, status: Status): Checkpoint {
      this.(steps := steps[n := status])
    }

    function Epoch(n: string): nat {
      if n in epochs then epochs[n] else 0
    }
  }

  predicate Done(s: Status) {
    s == Completed || s == Compensated || s == Skipped
  }

  datatype Fault = NoFault | Plain | AmbiguousFault | Interrupted

  datatype Outcome = Outcome(fault: Fault, ambiguous: bool) {
    predicate Succeeded() {
      fault == NoFault && !ambiguous
    }
  }

  /**
   What happens outside: an action is started, finishes well or badly, or a compensator is called while the
   step's resource is at some epoch, if it has one.
   */
  datatype Event = Start(step: string) | Finish(step: string) | Fail(step: string, outcome: Outcome)
                 | Undo(step: string, epoch: Option<nat>, ok: bool)

  /** How often the action of `n` was invoked. */
  function Starts(log: seq<Event>, n: string): nat {
    if log == [] then 0 else
      Starts(log[..|log| - 1], n) + (if log[|log| - 1] == Start(n) then 1 else 0)
  }

  lemma StartsNext(log: seq<Event>, e: Event, n: string)
    ensures Starts(log + [e], n) == Starts(log, n) + (if e == Start(n) then 1 else 0)
  {
    assert (log + [e])[..|log|] == log;
  }

  // ---------- what holds at every moment ----------

  predicate Grouped(def: Def, n: string) {
    n in def.steps && def.steps[n].group != ""
  }

  predicate HasParallel(def: Def) {
    exists n | n in def.steps :: Grouped(def, n)
  }

  /** Steps whose action must not be repeated blindly. */
  predicate Unrepeatable(def: Def, n: string) {
    n in def.steps && (def.steps[n].mode == NotRetryable || def.steps[n].mode == RequiresReconciliation)
  }

  /** `m` comes before `n` in the order of the definition. */
  predicate Earlier(def: Def, m: string, n: string) {
    exists i, j :: 0 <= i < j < |def.order| && def.order[i] == m && def.order[j] == n
  }

  /** Every step after `n` asks for reconciliation, so that its failures are never answered by compensation. */
  ghost predicate Firm(def: Def, n: string) {
    forall m {:trigger Earlier(def, n, m)} | m in def.steps && Earlier(def, n, m) ::
      def.steps[m].mode == RequiresReconciliation
  }

  /** Whether `n` is a step that can come to be undone; exact for definitions without parallel groups. */
  ghost predicate MayBeUndone(def: Def, n: string) {
    n in def.steps && def.steps[n].compensates && (HasParallel(def) || !Firm(def, n))
  }

  /** A status under which no executor invokes a step that must not be repeated. */
  predicate Settled(def: Def, n: string, s: Status)
    requires n in def.steps
  {
    s == Running || s == Completed || s == Reconcile
    || (s == Failed && (def.steps[n].mode == NotRetryable || HasParallel(def)))
  }

  /** The status `s` does not hide that the action of `n` was invoked; steps in `undoing` are excused. */
  ghost predicate Shows(def: Def, n: string, s: Status, log: seq<Event>, undoing: set<string>) {
    Unrepeatable(def, n) && n !in undoing ==> Starts(log, n) <= 1 && (Starts(log, n) == 1 ==> Settled(def, n, s))
  }

  /** Every unrepeatable step was invoked at most once, and is settled if it was. */
  ghost predicate InvokedOnce(def: Def, cp: Checkpoint, log: seq<Event>, undoing: set<string>) {
    forall n {:trigger Shows(def, n, cp.Status(n), log, undoing)} :: Shows(def, n, cp.Status(n), log, undoing)
  }

  /** Steps recorded as done, or listed as completed, did finish, unless nothing is really executed. */
  ghost predicate ReallyDone(def: Def, cp: Checkpoint, log: seq<Event>) {
    && (forall n | n in cp.completed :: n in def.steps)
    && (cp.dryRun || forall n {:trigger Finish(n)} | n in cp.completed || Done(cp.Status(n)) :: Finish(n) in log)
  }

  /** The dependencies of `n` have finished; without parallel groups, so has every step before it. */
  ghost predicate MayStart(def: Def, n: string, log: seq<Event>) {
    && n in def.steps && (forall d | d in def.steps[n].dependsOn :: Finish(d) in log)
    && (HasParallel(def) || forall m {:trigger Earlier(def, m, n)} | Earlier(def, m, n) :: Finish(m) in log)
  }

  /** What an event presupposes: actions start in order, only started ones end, only finished ones are undone. */
  ghost predicate Caused(def: Def, e: Event, before: seq<Event>) {
    match e
    case Start(n) => MayStart(def, n, before)
    case Finish(n) => Start(n) in before
    case Fail(n, _) => Start(n) in before
    case Undo(n, _, _) => Finish(n) in before
  }

  ghost predicate InOrder(def: Def, log: seq<Event>) {
    log == [] || (InOrder(def, log[..|log| - 1]) && Caused(def, log[|log| - 1], log[..|log| - 1]))
  }

  /** Every step before `n` is done. */
  ghost predicate EarlierDone(def: Def, cp: Checkpoint, n: string) {
    forall m {:trigger Earlier(def, m, n)} | Earlier(def, m, n) :: Done(cp.Status(m))
  }

  /** A completed firm step stays completed, and everything before it stays done. */
  ghost predicate Anchored(def: Def, cp: Checkpoint) {
    HasParallel(def) ||
    forall n {:trigger Firm(def, n)} | n in cp.completed && Firm(def, n) ::
      cp.Status(n) == Completed && EarlierDone(def, cp, n)
  }

  /** No firm step is among the completed ones. */
  ghost predicate NoneFirm(def: Def, cp: Checkpoint) {
    HasParallel(def) || forall n {:trigger Firm(def, n)} | n in cp.completed :: !Firm(def, n)
  }

  ghost predicate Sound(def: Def, cp: Checkpoint, log: seq<Event>, undoing: set<string>) {
    InvokedOnce(def, cp, log, undoing) && ReallyDone(def, cp, log) && Anchored(def, cp)
  }

  /**
   What survives a crash: the stored checkpoint, if any, and what has happened outside. `undoing` is a note on
   the past, the steps that were ever stored as compensating; no code reads it.
   */
  datatype Durable = Durable(stored: Option<Checkpoint>, log: seq<Event>, undoing: set<string>)

  const FIRST := Durable(None, [], {})

  ghost predicate Good(def: Def, d: Durable) {
    && InOrder(def, d.log) && (forall n | n in d.undoing :: MayBeUndone(def, n))
    && (d.stored == None ==> forall n :: Starts(d.log, n) == 0)
    && (d.stored.Some? ==> Sound(def, d.stored.value, d.log, d.undoing))
  }

  // ---------- histories ----------

  predicate StoredAs(d: Durable, n: string, s: Status) {
    d.stored.Some? && d.stored.value.Status(n) == s
  }

  /**
   Calls follow the record: an action runs while stored as running, a compensator while stored as compensating, and
   neither in a dry run.
   */
  predicate OnRecord(d: Durable, e: Event) {
    && d.stored.Some? && !d.stored.value.dryRun
    && (e.Start? ==> StoredAs(d, e.step, Running)) && (e.Undo? ==> StoredAs(d, e.step, Compensating))
  }

  /** One durable situation after another: a checkpoint is saved, or something on record happens outside. */
  predicate Follows(d: Durable, d': Durable) {
    || (&& d'.log == d.log && d'.stored.Some? && d.undoing <= d'.undoing
        && forall n | n in d'.undoing :: n in d.undoing || StoredAs(d', n, Compensating))
    || (&& d'.stored == d.stored && d'.undoing == d.undoing
        && |d'.log| == |d.log| + 1 && d'.log[..|d.log|] == d.log && OnRecord(d, d'.log[|d.log|]))
  }

  /** A history: good situations only, each following the one before. */
  ghost predicate Chain(def: Def, ds: seq<Durable>)
    decreases |ds|, 1
  {
    ds != [] && Reaches(def, ds[..|ds| - 1], ds[|ds| - 1])
  }

  /** A history, or nothing at all, goes on to the good situation `d`. */
  ghost predicate Reaches(def: Def, ds: seq<Durable>, d: Durable)
    decreases |ds| + 1, 0
  {
    Good(def, d) && (ds == [] || (Chain(def, ds) && Follows(ds[|ds| - 1], d)))
  }

  lemma ChainIs(def: Def, ds: seq<Durable>)
    requires ds != []
    ensures Chain(def, ds) <==>
              && Good(def, ds[|ds| - 1])
              && (|ds| > 1 ==> Chain(def, ds[..|ds| - 1]) && Follows(ds[|ds| - 2], ds[|ds| - 1]))
  {
    assert Chain(def, ds) <==> Reaches(def, ds[..|ds| - 1], ds[|ds| - 1]);
  }

  lemma ChainNext(def: Def, ds: seq<Durable>, d: Durable)
    requires Chain(def, ds) && Good(def, d) && Follows(ds[|ds| - 1], d)
    ensures Chain(def, ds + [d])
  {
    assert (ds + [d])[..|ds|] == ds;
    ChainIs(def, ds + [d]);
  }

  lemma {:induction false} ChainPrefix(def: Def, ds: seq<Durable>, k: nat)
    requires Chain(def, ds) && 0 < k <= |ds|
    ensures Chain(def, ds[..k])
  {
    if k == |ds| {
      assert ds[..k] == ds;
    } else {
      ChainIs(def, ds);
      ChainPrefix(def, ds[..|ds| - 1], k);
      assert ds[..|ds| - 1][..k] == ds[..k];
    }
  }

  /** Joining two sequences that share an element, one element less. */
  lemma JoinNext<T>(ds: seq<T>, more: seq<T>)
    requires ds != [] && |more| > 1 && more[0] == ds[|ds| - 1]
    ensures var init, last := more[..|more| - 1], more[|more| - 1];
            var all := ds + init[1..];
            && ds + more[1..] == all + [last] && all[|all| - 1] == init[|init| - 1] && init[0] == more[0]
            && init[|init| - 1] == more[|more| - 2]
  {
  }

  /** A process that starts where another one left off continues its history. */
  lemma {:induction false} ChainGoesOn(def: Def, ds: seq<Durable>, more: seq<Durable>)
    requires Chain(def, ds) && Chain(def, more) && more[0] == ds[|ds| - 1]
    ensures Chain(def, ds + more[1..])
  {
    if |more| == 1 {
      assert ds + more[1..] == ds;
    } else {
      var init, last := more[..|more| - 1], more[|more| - 1];
      JoinNext(ds, more);
      ChainIs(def, more);
      ChainGoesOn(def, ds, init);
      ChainNext(def, ds + init[1..], last);
    }
  }

  /** The note on the past is true: what it names was stored as compensating. */
  lemma {:induction false} UndoingWasStored(def: Def, ds: seq<Durable>, n: string)
    requires Chain(def, ds) && n in ds[|ds| - 1].undoing && n !in ds[0].undoing
    ensures exists i :: 0 <= i < |ds| && StoredAs(ds[i], n, Compensating)
  {
    ChainIs(def, ds);
    if !StoredAs(ds[|ds| - 1], n, Compensating) {
      var init := ds[..|ds| - 1];
      UndoingWasStored(def, init, n);
      var i :| 0 <= i < |init| && StoredAs(init[i], n, Compensating);
      assert StoredAs(ds[i], n, Compensating);
    }
  }

  /** In a history every event was on record when it happened. */
  lemma {:induction false} EventsWereOnRecord(def: Def, ds: seq<Durable>, p: nat)
    requires Chain(def, ds) && |ds[0].log| <= p < |ds[|ds| - 1].log|
    ensures exists i :: 0 <= i < |ds| && ds[i].log == ds[|ds| - 1].log[..p] && OnRecord(ds[i], ds[|ds| - 1].log[p])
    decreases |ds|
  {
    ChainIs(def, ds);
    var init, last := ds[..|ds| - 1], ds[|ds| - 1];
    assert |ds| > 1 && init[0] == ds[0] && init[|init| - 1] == ds[|ds| - 2];
    var before := ds[|ds| - 2];
    if p < |before.log| {
      EventsWereOnRecord(def, init, p);
      var i :| 0 <= i < |init| && init[i].log == before.log[..p] && OnRecord(init[i], before.log[p]);
      assert before.log[..p] == last.log[..p] && before.log[p] == last.log[p];
      assert ds[i] == init[i];
    } else {
      assert ds[|ds| - 2].log == last.log[..p] && OnRecord(ds[|ds| - 2], last.log[p]);
    }
  }

  // ---------- compensating from the back ----------

  ghost predicate NoneCompensating(cp: Checkpoint) {
    forall n :: cp.Status(n) != Compensating
  }

  ghost predicate OnlyCompensating(cp: Checkpoint, n: string) {
    forall m | m != n :: cp.Status(m) != Compensating
  }

  /** Everything before a step that is compensating is done. */
  ghost predicate Tidy(def: Def, cp: Checkpoint) {
    HasParallel(def) ||
    forall n {:trigger EarlierDone(def, cp, n)} | cp.Status(n) == Compensating :: EarlierDone(def, cp, n)
  }

  ghost predicate AllTidy(def: Def, ds: seq<Durable>) {
    ds == [] ||
    (var last := ds[|ds| - 1];
     AllTidy(def, ds[..|ds| - 1]) && (last.stored.Some? ==> Tidy(def, last.stored.value)))
  }

  lemma AllTidyNext(def: Def, ds: seq<Durable>, d: Durable)
    requires AllTidy(def, ds) && (d.stored.Some? ==> Tidy(def, d.stored.value))
    ensures AllTidy(def, ds + [d])
  {
    assert (ds + [d])[..|ds|] == ds;
  }

  lemma {:induction false} AllTidyAt(def: Def, ds: seq<Durable>, k: nat)
    requires AllTidy(def, ds) && k < |ds| && ds[k].stored.Some?
    ensures Tidy(def, ds[k].stored.value)
  {
    if k < |ds| - 1 {
      AllTidyAt(def, ds[..|ds| - 1], k);
    }
  }

  // ---------- what changes keep ----------

  lemma EventKeepsOrder(def: Def, log: seq<Event>, e: Event)
    requires InOrder(def, log) && Caused(def, e, log)
    ensures InOrder(def, log + [e])
  {
    assert (log + [e])[..|log|] == log;
  }

  /** Each event of a log was caused by those before it. */
  lemma {:induction false} EventWasCaused(def: Def, log: seq<Event>, p: nat)
    requires InOrder(def, log) && p < |log|
    ensures Caused(def, log[p], log[..p]) && InOrder(def, log[..p])
  {
    var init := log[..|log| - 1];
    if p < |init| {
      EventWasCaused(def, init, p);
      assert init[..p] == log[..p];
    }
  }

  lemma {:induction false} StartedMeansStart(log: seq<Event>, n: string)
    ensures Starts(log, n) > 0 <==> Start(n) in log
  {
    if log != [] {
      var init, last := log[..|log| - 1], log[|log| - 1];
      StartedMeansStart(init, n);
      assert log == init + [last];
    }
  }

  /** What was undone had been started before. */
  lemma UndoneWasStarted(def: Def, log: seq<Event>, p: nat)
    requires InOrder(def, log) && p < |log| && log[p].Undo?
    ensures Starts(log[..p], log[p].step) > 0
  {
    var n := log[p].step;
    EventWasCaused(def, log, p);
    var q :| 0 <= q < p && log[..p][q] == Finish(n);
    EventWasCaused(def, log[..p], q);
    assert Start(n) in log[..p][..q];
    StartedMeansStart(log[..p], n);
  }

  // ---------- firm steps ----------

  lemma EarlierIsIrreflexive(def: Def, n: string)
    requires WellFormed(def)
    ensures !Earlier(def, n, n)
  {
  }

  lemma EarlierIsTotal(def: Def, m: string, n: string)
    requires WellFormed(def) && m in def.steps && n in def.steps && m != n
    ensures Earlier(def, m, n) || Earlier(def, n, m)
  {
    assert m in def.order && n in def.order;
    var i :| 0 <= i < |def.order| && def.order[i] == m;
    var j :| 0 <= j < |def.order| && def.order[j] == n;
    assert i < j || j < i;
  }

  /** While a step that does not ask for reconciliation is not done, no firm step is completed. */
  lemma OpenMeansNoneFirm(def: Def, cp: Checkpoint, n: string)
    requires WellFormed(def) && Anchored(def, cp) && n in def.steps && !Done(cp.Status(n))
    requires def.steps[n].mode != RequiresReconciliation && forall m | m in cp.completed :: m in def.steps
    ensures NoneFirm(def, cp)
  {
    if !HasParallel(def) {
      forall m | m in cp.completed ensures !Firm(def, m) {
        if Firm(def, m) {
          EarlierIsTotal(def, m, n);
          assert false;
        }
      }
    }
  }

  /** The status of a step that is not done may change; so may any while no firm step is completed. */
  lemma StatusKeepsAnchored(def: Def, cp: Checkpoint, n: string, s: Status)
    requires Anchored(def, cp) && (HasParallel(def) || !Done(cp.Status(n)) || s == Completed || NoneFirm(def, cp))
    ensures Anchored(def, cp.With(n, s))
  {
  }

  /** An event keeps a checkpoint sound, unless it starts an unrepeatable step again or behind its back. */
  lemma EventKeepsSound(def: Def, cp: Checkpoint, log: seq<Event>, undoing: set<string>, e: Event)
    requires Sound(def, cp, log, undoing)
    requires e.Start? ==> cp.Status(e.step) == Running
    requires e.Start? && Unrepeatable(def, e.step) && e.step !in undoing ==> Starts(log, e.step) == 0
    ensures Sound(def, cp, log + [e], undoing)
  {
    forall m ensures Shows(def, m, cp.Status(m), log + [e], undoing) {
      assert Shows(def, m, cp.Status(m), log, undoing);
      StartsNext(log, e, m);
    }
    FinishesStay(log, e);
  }

  lemma FinishesStay(log: seq<Event>, e: Event)
    ensures forall x | x in log :: x in log + [e]
  {
    var log' := log + [e];
    forall x | x in log ensures x in log' {
      var i :| 0 <= i < |log| && log[i] == x;
      assert log'[i] == x;
    }
  }

  /** Recording a status for one step, when that is allowed. */
  lemma StatusKeepsSound(def: Def, cp: Checkpoint, log: seq<Event>, undoing: set<string>, n: string, s: Status)
    requires Sound(def, cp, log, undoing)
    requires Unrepeatable(def, n) && n !in undoing ==> Starts(log, n) == 0 || Settled(def, n, s)
    requires Done(s) ==> cp.dryRun || Finish(n) in log
    requires HasParallel(def) || !Done(cp.Status(n)) || s == Completed || NoneFirm(def, cp)
    ensures Sound(def, cp.With(n, s), log, undoing)
  {
    var cp' := cp.With(n, s);
    StatusKeepsAnchored(def, cp, n, s);
    forall m ensures Shows(def, m, cp'.Status(m), log, undoing) {
      assert Shows(def, m, cp.Status(m), log, undoing);
      assert m != n ==> cp'.Status(m) == cp.Status(m);
    }
    forall m | Done(cp'.Status(m)) ensures cp.dryRun || Finish(m) in log {
      assert m != n ==> cp'.Status(m) == cp.Status(m);
    }
  }

  lemma ExcusedStaysSound(def: Def, cp: Checkpoint, log: seq<Event>, undoing: set<string>, more: set<string>)
    requires Sound(def, cp, log, undoing)
    ensures Sound(def, cp, log, undoing + more)
  {
    forall m ensures Shows(def, m, cp.Status(m), log, undoing + more) {
      assert Shows(def, m, cp.Status(m), log, undoing);
    }
  }

  /** List a step as completed, with the epoch its resource had when it ran. */
  function Listed(cp: Checkpoint, n: string, epoch: nat): Checkpoint {
    cp.With(n, Completed).(completed := cp.completed + [n], epochs := cp.epochs[n := epoch])
  }

  lemma CompletionKeepsSound(def: Def, cp: Checkpoint, log: seq<Event>, undoing: set<string>, n: string, epoch: nat)
    requires WellFormed(def) && Sound(def, cp, log, undoing) && n in def.steps && (cp.dryRun || Finish(n) in log)
    requires HasParallel(def) || EarlierDone(def, cp, n)
    ensures Sound(def, Listed(cp, n, epoch), log, undoing)
  {
    EarlierIsIrreflexive(def, n);
    StatusKeepsSound(def, cp, log, undoing, n, Completed);
    var cp' := Listed(cp, n, epoch);
    assert forall m :: cp'.Status(m) == cp.With(n, Completed).Status(m);
    forall m ensures Shows(def, m, cp'.Status(m), log, undoing) {
      assert Shows(def, m, cp.With(n, Completed).Status(m), log, undoing);
    }
  }

  /** What a sound checkpoint says about a step it does not show as settled. */
  lemma UnsettledWasNotInvoked(def: Def, cp: Checkpoint, log: seq<Event>, undoing: set<string>, n: string)
    requires Sound(def, cp, log, undoing) && Unrepeatable(def, n) && n !in undoing && !Settled(def, n, cp.Status(n))
    ensures Starts(log, n) == 0
  {
    assert Shows(def, n, cp.Status(n), log, undoing);
  }
}
