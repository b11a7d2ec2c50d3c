/** A wave of actions run side by side: what any interleaving of them leaves in the log and the checkpoint. */
module WorkflowBatch {
  import opened Names
  import opened ClaimRecords
  import opened WorkflowRuns
  import opened WorkflowUndo

  /** The names whose action succeeded, in the same order. */
  function Winners(names: seq<string>, outcomes: map<string, Outcome>): seq<string> {
    if names == [] then [] else
      var last := names[|names| - 1];
      Winners(names[..|names| - 1], outcomes) + (if last in outcomes && outcomes[last].Succeeded() then [last] else [])
  }

  lemma {:induction false} WinnersAre(names: seq<string>, outcomes: map<string, Outcome>)
    ensures forall n :: n in Winners(names, outcomes) <==> n in names && n in outcomes && outcomes[n].Succeeded()
    ensures NoDup(names) ==> NoDup(Winners(names, outcomes))
  {
    if names != [] {
      var init, last := names[..|names| - 1], names[|names| - 1];
      WinnersAre(init, outcomes);
      assert names == init + [last];
      assert NoDup(names) ==> last !in init;
    }
  }

  /** The first name whose action did not succeed. */
  function FirstFailure(names: seq<string>, outcomes: map<string, Outcome>): Option<string>
    requires forall i :: 0 <= i < |names| ==> names[i] in outcomes
  {
    if names == [] then None else
      var last := names[|names| - 1];
      var earlier := FirstFailure(names[..|names| - 1], outcomes);
      if earlier.None? && !outcomes[last].Succeeded() then Some(last) else earlier
  }

  /** The action at position `k` failed, those before it succeeded. */
  predicate FailsFirst(names: seq<string>, outcomes: map<string, Outcome>, k: nat) {
    && k < |names| && names[k] in outcomes && !outcomes[names[k]].Succeeded()
    && forall j :: 0 <= j < k ==> names[j] in outcomes && outcomes[names[j]].Succeeded()
  }

  lemma FirstFailureNext(names: seq<string>, i: nat, outcomes: map<string, Outcome>)
    requires i < |names| && forall j :: 0 <= j < |names| ==> names[j] in outcomes
    ensures FirstFailure(names[..i + 1], outcomes) ==
            var earlier := FirstFailure(names[..i], outcomes);
            if earlier.None? && !outcomes[names[i]].Succeeded() then Some(names[i]) else earlier
  {
    assert names[..i + 1][..i] == names[..i];
  }

  lemma {:induction false} FirstFailureIs(names: seq<string>, outcomes: map<string, Outcome>)
    requires forall i :: 0 <= i < |names| ==> names[i] in outcomes
    ensures var fail := FirstFailure(names, outcomes);
            && (fail.None? ==> forall i :: 0 <= i < |names| ==> outcomes[names[i]].Succeeded())
            && (fail.Some? ==> exists k: nat :: FailsFirst(names, outcomes, k) && names[k] == fail.value)
  {
    if names != [] {
      var init := names[..|names| - 1];
      FirstFailureIs(init, outcomes);
      if FirstFailure(init, outcomes).Some? {
        var k: nat :| FailsFirst(init, outcomes, k) && init[k] == FirstFailure(init, outcomes).value;
        assert FailsFirst(names, outcomes, k);
      } else if !outcomes[names[|names| - 1]].Succeeded() {
        assert FailsFirst(names, outcomes, |names| - 1);
      }
    }
  }

  lemma {:induction false} AllWinners(names: seq<string>, outcomes: map<string, Outcome>)
    requires forall n | n in names :: n in outcomes && outcomes[n].Succeeded()
    ensures Winners(names, outcomes) == names
  {
    if names != [] {
      var init, last := names[..|names| - 1], names[|names| - 1];
      AllWinners(init, outcomes);
      assert names == init + [last];
    }
  }

  /** From `log0` on, only actions of `begun` were called, each started once. */
  ghost predicate Extends(log0: seq<Event>, log: seq<Event>, begun: set<string>) {
    && |log0| <= |log| && log[..|log0|] == log0 && (forall e | e in log0 :: e in log) && Undos(log) == Undos(log0)
    && (forall k :: |log0| <= k < |log| ==> log[k].step in begun)
    && (forall n :: Starts(log, n) == Starts(log0, n) + if n in begun then 1 else 0)
  }

  /** An outcome fits what happened; one of an action that was interrupted before it started left no event. */
  ghost predicate Left(log: seq<Event>, begun: set<string>, dryRun: bool, n: string, o: Outcome) {
    if o.Succeeded() then dryRun || (n in begun && Finish(n) in log)
    else o.fault == Interrupted || Fail(n, o) in log
  }

  /** An event is older than the wave, is a start, or tells a known outcome. */
  ghost predicate Told(log0: seq<Event>, outcomes: map<string, Outcome>, e: Event) {
    || e in log0 || e.Start?
    || (e.Finish? && e.step in outcomes && outcomes[e.step].Succeeded())
    || (e.Fail? && e.step in outcomes && outcomes[e.step] == e.outcome && !e.outcome.Succeeded())
  }

  /** What a wave has done since `log0`: the actions of `begun` were started, and outcomes and events fit each other. */
  ghost predicate Batched(
      log0: seq<Event>, log: seq<Event>, begun: set<string>, outcomes: map<string, Outcome>, dryRun: bool) {
    && Extends(log0, log, begun) && (dryRun ==> begun == {} && log == log0)
    && (forall n | n in outcomes :: Left(log, begun, dryRun, n, outcomes[n]))
    && (forall e {:trigger Told(log0, outcomes, e)} | e in log :: Told(log0, outcomes, e))
  }

  lemma ExtendsNext(log0: seq<Event>, log: seq<Event>, begun: set<string>, e: Event, begun': set<string>)
    requires Extends(log0, log, begun) && !e.Undo? && e.step in begun'
    requires if e.Start? then e.step !in begun && begun' == begun + {e.step} else begun' == begun
    ensures Extends(log0, log + [e], begun')
  {
    FinishesStay(log, e);
    UndosNext(log, e);
    assert (log + [e])[..|log0|] == log[..|log0|];
    forall m ensures Starts(log + [e], m) == Starts(log0, m) + if m in begun' then 1 else 0 {
      StartsNext(log, e, m);
    }
  }

  lemma BatchStarts(
      log0: seq<Event>, log: seq<Event>, begun: set<string>, outcomes: map<string, Outcome>, n: string)
    requires Batched(log0, log, begun, outcomes, false) && n !in begun
    ensures Batched(log0, log + [Start(n)], begun + {n}, outcomes, false)
  {
    ExtendsNext(log0, log, begun, Start(n), begun + {n});
    FinishesStay(log, Start(n));
    forall e | e in log + [Start(n)] ensures Told(log0, outcomes, e) {
      assert e in log ==> Told(log0, outcomes, e);
    }
  }

  lemma BatchEnds(
      log0: seq<Event>, log: seq<Event>, begun: set<string>, outcomes: map<string, Outcome>, n: string, o: Outcome)
    requires Batched(log0, log, begun, outcomes, false) && n in begun && n !in outcomes
    ensures Batched(log0, log + [if o.Succeeded() then Finish(n) else Fail(n, o)], begun, outcomes[n := o], false)
  {
    var e := if o.Succeeded() then Finish(n) else Fail(n, o);
    var log', outcomes' := log + [e], outcomes[n := o];
    ExtendsNext(log0, log, begun, e, begun);
    FinishesStay(log, e);
    assert log'[|log|] == e;
    forall m | m in outcomes' ensures Left(log', begun, false, m, outcomes'[m]) {
      assert m != n ==> Left(log, begun, false, m, outcomes[m]);
    }
    forall x | x in log' ensures Told(log0, outcomes', x) {
      assert x in log ==> Told(log0, outcomes, x);
    }
  }

  /** A goroutine that never got to its action: cancelled while waiting, or a dry run. */
  lemma BatchSkips(
      log0: seq<Event>, log: seq<Event>, begun: set<string>, outcomes: map<string, Outcome>, dryRun: bool,
      n: string, o: Outcome)
    requires Batched(log0, log, begun, outcomes, dryRun) && n !in outcomes
    requires if o.Succeeded() then dryRun else o.fault == Interrupted
    ensures Batched(log0, log, begun, outcomes[n := o], dryRun)
  {
    forall x | x in log ensures Told(log0, outcomes[n := o], x) {
      assert Told(log0, outcomes, x);
    }
  }

  /** The goroutines of a wave: waiting for a slot, inside their action, or done; `begun` are those that started one. */
  datatype Wave = Wave(waiting: set<string>, running: set<string>, outcomes: map<string, Outcome>, begun: set<string>) {

    function Launched(n: string): Wave {
      Wave(waiting - {n}, running + {n}, outcomes, begun + {n})
    }

    function Landed(n: string, o: Outcome): Wave {
      Wave(waiting, running - {n}, outcomes[n := o], begun)
    }

    function Skipped(n: string, o: Outcome): Wave {
      Wave(waiting - {n}, running, outcomes[n := o], begun)
    }

    predicate Splits(all: set<string>) {
      && waiting + running + outcomes.Keys == all && waiting !! running !! outcomes.Keys
      && running <= begun <= running + outcomes.Keys
    }

    predicate AllGood() {
      forall n | n in outcomes :: outcomes[n].Succeeded()
    }

    predicate NoneInterrupted() {
      forall n | n in outcomes :: outcomes[n].fault != Interrupted
    }
  }

  /** What is still to be done in the wave, counting a start and an end for each action. */
  function Work(w: Wave): nat {
    2 * |w.waiting| + |w.running|
  }

  lemma LaunchIsProgress(w: Wave, n: string)
    requires n in w.waiting && n !in w.running
    ensures Work(w.Launched(n)) < Work(w) && |w.Launched(n).running| == |w.running| + 1
  {
  }

  lemma SkipIsProgress(w: Wave, n: string, o: Outcome)
    requires n in w.waiting
    ensures Work(w.Skipped(n, o)) < Work(w) && w.Skipped(n, o).running == w.running
  {
  }

  lemma LandIsProgress(w: Wave, n: string, o: Outcome)
    requires n in w.running
    ensures Work(w.Landed(n, o)) < Work(w) && |w.Landed(n, o).running| == |w.running| - 1
  {
  }

  /** The action of `n` may be invoked: its dependencies have finished, and an unrepeatable one was not invoked. */
  ghost predicate CanStart(def: Def, dryRun: bool, log: seq<Event>, undoing: set<string>, n: string) {
    && n in def.steps && (dryRun || MayStart(def, n, log))
    && (Unrepeatable(def, n) && n !in undoing ==> Starts(log, n) == 0)
  }

  ghost predicate AllCanStart(def: Def, dryRun: bool, log: seq<Event>, undoing: set<string>, names: set<string>) {
    forall n | n in names :: CanStart(def, dryRun, log, undoing, n)
  }

  ghost predicate Flying(
      def: Def, log0: seq<Event>, log: seq<Event>, undoing: set<string>, all: set<string>, w: Wave, dryRun: bool) {
    && w.Splits(all) && Batched(log0, log, w.begun, w.outcomes, dryRun)
    && AllCanStart(def, dryRun, log, undoing, w.waiting)
  }

  lemma StillCanStart(
      def: Def, dryRun: bool, log: seq<Event>, undoing: set<string>, e: Event, names: set<string>)
    requires AllCanStart(def, dryRun, log, undoing, names) && (e.Start? ==> e.step !in names)
    ensures AllCanStart(def, dryRun, log + [e], undoing, names)
  {
    FinishesStay(log, e);
    forall m | m in names ensures CanStart(def, dryRun, log + [e], undoing, m) {
      assert CanStart(def, dryRun, log, undoing, m);
      StartsNext(log, e, m);
    }
  }

  lemma LaunchKeepsFlying(
      def: Def, log0: seq<Event>, log: seq<Event>, undoing: set<string>, all: set<string>, w: Wave, n: string)
    requires Flying(def, log0, log, undoing, all, w, false) && n in w.waiting
    ensures Flying(def, log0, log + [Start(n)], undoing, all, w.Launched(n), false)
  {
    BatchStarts(log0, log, w.begun, w.outcomes, n);
    StillCanStart(def, false, log, undoing, Start(n), w.waiting - {n});
  }

  lemma LandKeepsFlying(
      def: Def, log0: seq<Event>, log: seq<Event>, undoing: set<string>, all: set<string>, w: Wave, dryRun: bool,
      n: string, o: Outcome)
    requires Flying(def, log0, log, undoing, all, w, dryRun) && n in w.running
    ensures var e := if o.Succeeded() then Finish(n) else Fail(n, o);
            Flying(def, log0, log + [e], undoing, all, w.Landed(n, o), dryRun)
  {
    BatchEnds(log0, log, w.begun, w.outcomes, n, o);
    StillCanStart(def, false, log, undoing, if o.Succeeded() then Finish(n) else Fail(n, o), w.waiting);
  }

  lemma SkipKeepsFlying(
      def: Def, log0: seq<Event>, log: seq<Event>, undoing: set<string>, all: set<string>, w: Wave, dryRun: bool,
      n: string, o: Outcome)
    requires Flying(def, log0, log, undoing, all, w, dryRun) && n in w.waiting
    requires if o.Succeeded() then dryRun else o.fault == Interrupted
    ensures Flying(def, log0, log, undoing, all, w.Skipped(n, o), dryRun)
  {
    BatchSkips(log0, log, w.begun, w.outcomes, dryRun, n, o);
  }

  // ---------- interleavings ----------

  /** One move of a goroutine: it gets a slot, sees a cancellation while waiting, or its action returns. */
  datatype Move = Take(name: string) | Leave(name: string) | Return(name: string, outcome: Outcome)

  datatype Flight = Flight(wave: Wave, log: seq<Event>)

  const OK := Outcome(NoFault, false)
  const GONE := Outcome(Interrupted, false)

  predicate Allowed(f: Flight, max: nat, m: Move) {
    match m
    case Take(n) => n in f.wave.waiting && |f.wave.running| < max
    case Leave(n) => n in f.wave.waiting
    case Return(n, _) => n in f.wave.running
  }

  /** In a dry run a goroutine with a slot succeeds at once, without an action. */
  function Apply(f: Flight, dryRun: bool, m: Move): Flight {
    match m
    case Take(n) => if dryRun then f.(wave := f.wave.Skipped(n, OK)) else Flight(f.wave.Launched(n), f.log + [Start(n)])
    case Leave(n) => f.(wave := f.wave.Skipped(n, GONE))
    case Return(n, o) => Flight(f.wave.Landed(n, o), f.log + [if o.Succeeded() then Finish(n) else Fail(n, o)])
  }

  function FlightOf(all: set<string>, log0: seq<Event>, dryRun: bool, moves: seq<Move>): Flight {
    if moves == [] then Flight(Wave(all, {}, map[], {}), log0)
    else Apply(FlightOf(all, log0, dryRun, moves[..|moves| - 1]), dryRun, moves[|moves| - 1])
  }

  predicate Legal(all: set<string>, log0: seq<Event>, dryRun: bool, max: nat, moves: seq<Move>) {
    moves == [] ||
    (Legal(all, log0, dryRun, max, moves[..|moves| - 1]) &&
     Allowed(FlightOf(all, log0, dryRun, moves[..|moves| - 1]), max, moves[|moves| - 1]))
  }

  lemma MoveNext(all: set<string>, log0: seq<Event>, dryRun: bool, max: nat, moves: seq<Move>, m: Move)
    requires Legal(all, log0, dryRun, max, moves) && Allowed(FlightOf(all, log0, dryRun, moves), max, m)
    ensures Legal(all, log0, dryRun, max, moves + [m])
    ensures FlightOf(all, log0, dryRun, moves + [m]) == Apply(FlightOf(all, log0, dryRun, moves), dryRun, m)
  {
    assert (moves + [m])[..|moves|] == moves;
  }

  /** Whatever the interleaving, at most `max` actions are running, and what has happened fits the outcomes. */
  lemma {:induction false} EveryInterleaving(
      def: Def, all: set<string>, log0: seq<Event>, undoing: set<string>, dryRun: bool, max: nat, moves: seq<Move>)
    requires Legal(all, log0, dryRun, max, moves) && AllCanStart(def, dryRun, log0, undoing, all)
    ensures var f := FlightOf(all, log0, dryRun, moves);
            Flying(def, log0, f.log, undoing, all, f.wave, dryRun) && |f.wave.running| <= max
  {
    if moves != [] {
      var init, m := moves[..|moves| - 1], moves[|moves| - 1];
      EveryInterleaving(def, all, log0, undoing, dryRun, max, init);
      var f := FlightOf(all, log0, dryRun, init);
      MoveKeepsFlying(def, all, log0, undoing, dryRun, max, f, m);
    }
  }

  lemma MoveKeepsFlying(
      def: Def, all: set<string>, log0: seq<Event>, undoing: set<string>, dryRun: bool, max: nat, f: Flight, m: Move)
    requires Flying(def, log0, f.log, undoing, all, f.wave, dryRun) && |f.wave.running| <= max && Allowed(f, max, m)
    ensures var f' := Apply(f, dryRun, m);
            Flying(def, log0, f'.log, undoing, all, f'.wave, dryRun) && |f'.wave.running| <= max
  {
    match m
    case Take(n) =>
      if dryRun {
        SkipKeepsFlying(def, log0, f.log, undoing, all, f.wave, dryRun, n, OK);
      } else {
        LaunchKeepsFlying(def, log0, f.log, undoing, all, f.wave, n);
      }
    case Leave(n) => SkipKeepsFlying(def, log0, f.log, undoing, all, f.wave, dryRun, n, GONE);
    case Return(n, o) => LandKeepsFlying(def, log0, f.log, undoing, all, f.wave, dryRun, n, o);
  }

  /** What a goroutine about to move relies on. */
  lemma AboutToMove(
      def: Def, all: set<string>, log0: seq<Event>, undoing: set<string>, dryRun: bool, max: nat, moves: seq<Move>,
      n: string)
    requires Legal(all, log0, dryRun, max, moves) && AllCanStart(def, dryRun, log0, undoing, all)
    ensures var f := FlightOf(all, log0, dryRun, moves);
            && (n in f.wave.waiting ==> n in all && n !in f.wave.running && CanStart(def, dryRun, f.log, undoing, n))
            && (n in f.wave.running ==> !dryRun && Start(n) in f.log)
  {
    EveryInterleaving(def, all, log0, undoing, dryRun, max, moves);
    StartedMeansStart(FlightOf(all, log0, dryRun, moves).log, n);
  }

  /** All steps of `names` are running; the rest is as it was. */
  ghost predicate Marked(cp0: Checkpoint, cp: Checkpoint, names: seq<string>) {
    && cp == cp0.(steps := cp.steps)
    && forall n :: cp.Status(n) == if n in names then Running else cp0.Status(n)
  }

  /** The winners among `names` are completed and listed in this order, with their epochs; the rest is as it was. */
  ghost predicate Applied(
      cp0: Checkpoint, cp: Checkpoint, names: seq<string>, outcomes: map<string, Outcome>, epochs: map<string, nat>) {
    && (forall n | n in Winners(names, outcomes) :: n in epochs && cp.Epoch(n) == epochs[n])
    && (forall n | n !in Winners(names, outcomes) :: cp.Epoch(n) == cp0.Epoch(n))
    && cp.completed == cp0.completed + Winners(names, outcomes) && cp.dryRun == cp0.dryRun && cp.state == cp0.state
    && forall n :: cp.Status(n) == if n in Winners(names, outcomes) then Completed else cp0.Status(n)
  }

  /** The running steps of `names` other than `fail` are marked failed; nothing else changed. */
  ghost predicate SiblingsFailed(cp0: Checkpoint, cp: Checkpoint, names: seq<string>, fail: string) {
    && cp == cp0.(steps := cp.steps)
    && forall n :: cp.Status(n) == if n in names && n != fail && cp0.Status(n) == Running then Failed else cp0.Status(n)
  }

  /** After a wave over `names`: winners are completed and listed, the others are still marked running. */
  ghost predicate Ran(
      cp0: Checkpoint, cp: Checkpoint, names: seq<string>, outcomes: map<string, Outcome>, epochs: map<string, nat>) {
    && (forall n | n in Winners(names, outcomes) :: n in epochs && cp.Epoch(n) == epochs[n])
    && (forall n | n !in Winners(names, outcomes) :: cp.Epoch(n) == cp0.Epoch(n))
    && cp.completed == cp0.completed + Winners(names, outcomes) && cp.dryRun == cp0.dryRun
    && forall n :: cp.Status(n) == if n in Winners(names, outcomes) then Completed
                                   else if n in names then Running else cp0.Status(n)
  }

  lemma MarkedThenApplied(
      cp0: Checkpoint, cp1: Checkpoint, cp2: Checkpoint, batch: seq<string>, names: seq<string>,
      outcomes: map<string, Outcome>, epochs: map<string, nat>)
    requires Marked(cp0, cp1, batch) && Applied(cp1, cp2, names, outcomes, epochs) && Elements(batch) == Elements(names)
    ensures Ran(cp0, cp2, names, outcomes, epochs)
  {
    forall n ensures n in batch <==> n in names {
      assert n in Elements(batch) <==> n in Elements(names);
    }
  }

  /** Steps that may run may start: what is recorded as done has finished, and unsettled means never invoked. */
  lemma RunnableCanStart(def: Def, cp: Checkpoint, log: seq<Event>, undoing: set<string>, n: string)
    requires Sound(def, cp, log, undoing) && n in def.steps
    requires forall d | d in def.steps[n].dependsOn :: Done(cp.Status(d))
    requires HasParallel(def) || EarlierDone(def, cp, n)
    requires Unrepeatable(def, n) && n !in undoing ==> !Settled(def, n, cp.Status(n))
    ensures CanStart(def, cp.dryRun, log, undoing, n)
  {
    if Unrepeatable(def, n) && n !in undoing {
      UnsettledWasNotInvoked(def, cp, log, undoing, n);
    }
  }

  lemma MarkedNext(cp0: Checkpoint, cp: Checkpoint, names: seq<string>, i: nat)
    requires i < |names| && Marked(cp0, cp, names[..i])
    ensures Marked(cp0, cp.With(names[i], Running), names[..i + 1])
  {
    assert names[..i + 1] == names[..i] + [names[i]];
    var cp' := cp.With(names[i], Running);
    forall n ensures cp'.Status(n) == if n in names[..i + 1] then Running else cp0.Status(n) {
      assert n != names[i] ==> cp'.Status(n) == cp.Status(n);
    }
  }

  lemma AppliedNext(
      cp0: Checkpoint, cp: Checkpoint, names: seq<string>, i: nat, outcomes: map<string, Outcome>,
      epochs: map<string, nat>)
    requires i < |names| && names[i] in outcomes && names[i] in epochs
    requires Applied(cp0, cp, names[..i], outcomes, epochs)
    ensures outcomes[names[i]].Succeeded() ==>
              Applied(cp0, Listed(cp, names[i], epochs[names[i]]), names[..i + 1], outcomes, epochs)
    ensures !outcomes[names[i]].Succeeded() ==> Applied(cp0, cp, names[..i + 1], outcomes, epochs)
  {
    assert names[..i + 1][..i] == names[..i];
    var cp', won := Listed(cp, names[i], epochs[names[i]]), Winners(names[..i], outcomes);
    forall n ensures cp'.Status(n) == if n == names[i] then Completed else cp.Status(n) {
    }
    assert outcomes[names[i]].Succeeded() ==> Winners(names[..i + 1], outcomes) == won + [names[i]];
    assert !outcomes[names[i]].Succeeded() ==> Winners(names[..i + 1], outcomes) == won;
  }

  lemma SiblingsFailedNext(cp0: Checkpoint, cp: Checkpoint, names: seq<string>, i: nat, fail: string)
    requires i < |names| && SiblingsFailed(cp0, cp, names[..i], fail)
    ensures var n := names[i];
            var cp' := if n != fail && cp.Status(n) == Running then cp.With(n, Failed) else cp;
            SiblingsFailed(cp0, cp', names[..i + 1], fail)
  {
    var n := names[i];
    assert names[..i + 1] == names[..i] + [n];
    var cp' := if n != fail && cp.Status(n) == Running then cp.With(n, Failed) else cp;
    forall m ensures cp'.Status(m) ==
        if m in names[..i + 1] && m != fail && cp0.Status(m) == Running then Failed else cp0.Status(m) {
      assert m != n ==> cp'.Status(m) == cp.Status(m);
    }
  }

  lemma {:induction false} DepsEarlierMore(def: Def, completed: seq<string>, more: seq<string>)
    requires DepsEarlier(def, completed)
    requires forall n | n in more :: n in def.steps && forall d | d in def.steps[n].dependsOn :: d in completed
    ensures DepsEarlier(def, completed + more)
  {
    var all := completed + more;
    forall i | 0 <= i < |all|
      ensures all[i] in def.steps && forall d | d in def.steps[all[i]].dependsOn :: d in all[..i]
    {
      if i < |completed| {
        assert all[..i] == completed[..i];
      } else {
        assert all[i] == more[i - |completed|];
        assert all[..i] == completed + more[..i - |completed|];
      }
    }
  }
}
