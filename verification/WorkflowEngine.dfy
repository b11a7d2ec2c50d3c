/** The engine: sequential and parallel execution, resuming, and compensation, over a crash-prone process. */
module WorkflowEngine {
  import opened Names
  import opened WorkflowDefinition
  import opened ClaimRecords
  import opened WorkflowRuns
  import opened WorkflowUndo
  import opened WorkflowBatch
  import opened WorkflowReady
  import opened WorkflowOutcomes
  import opened WorkflowGuards

  class Engine {
    const def: Def
    const env: Environment
    const maxParallel: nat
    const hasOperationID: bool
    const resume: bool

    /** Where this process started. */
    const first: Durable

    /** How often the environment has been asked. */
    var tick: nat
    var inst: Checkpoint

    /** The store's entry for this instance, and what has happened outside so far. */
    var stored: Option<Checkpoint>
    var log: seq<Event>

    /** The steps ever stored as compensating. */
    var undoing: set<string>

    /** Every durable situation this process has gone through; a crash leaves one of them behind. */
    var trace: seq<Durable>

    /** What this process has asked before it called actions. */
    var checks: seq<Check>

    ghost predicate Valid()
      reads this`inst, this`stored, this`log, this`undoing, this`trace, this`checks, this`tick
    {
      && WellFormed(def) && maxParallel > 0 && Sound(def, inst, log, undoing) && Traced() && Minded()
      && LastAsked(checks) < tick
      && (resume || (EpochsSeen(def, env, inst) && Tidy(def, inst)))
    }

    /** The situations gone through are a history from `first` to the present, and what happened is no invention. */
    ghost predicate Traced()
      reads this`stored, this`log, this`undoing, this`trace
    {
      && Chain(def, trace) && trace[0] == first && trace[|trace| - 1] == Durable(stored, log, undoing)
      && Honest(def, env, first.log, log) && (resume || AllTidy(def, trace))
    }

    /** Actions began only as the answers allowed, and none is missing from the notes. */
    ghost predicate Minded()
      reads this`log, this`checks
    {
      Obeyed(def, env, checks) && Started(log) == Started(first.log) + Begun(checks)
    }

    /** Between rounds: no answer so far forbids to go on, and all capabilities are there. */
    ghost predicate Ready()
      reads this`checks
    {
      Going(def, env, checks) && Vetted(def, checks)
    }

    /** At the beginning of a round that was not cancelled. */
    ghost predicate Polled()
      reads this`checks
    {
      Ready() && InRound(checks) && NoneBegan(checks)
    }

    constructor (
        def: Def, env: Environment, maxParallel: nat, hasOperationID: bool, resume: bool, durable: Durable,
        dryRun: bool)
      requires WellFormed(def) && maxParallel > 0 && Good(def, durable)
      requires !resume ==> durable == FIRST
      ensures this.def == def && this.env == env && this.hasOperationID == hasOperationID && this.resume == resume
      ensures this.maxParallel == maxParallel && first == durable && trace == [durable] && tick == 0
      ensures stored == durable.stored && log == durable.log && undoing == durable.undoing && checks == []
      ensures Starting() && inst == Checkpoint(StateCreated, map[], [], map[], dryRun)
    {
      this.def, this.env, this.maxParallel := def, env, maxParallel;
      this.hasOperationID, this.resume, first := hasOperationID, resume, durable;
      tick := 0;
      inst := Checkpoint(StateCreated, map[], [], map[], dryRun);
      stored, log, undoing, trace, checks := durable.stored, durable.log, durable.undoing, [durable], [];
    }

    /** The run has ended with `r`, truthfully, and the instance was saved in the state that goes with it. */
    ghost predicate Reported(r: Result)
      reads this`inst, this`stored
    {
      Aborts(r) && Fits(r, inst.state) && stored == Some(inst) && Explained(def, env, hasOperationID, resume, r)
    }

    // ---------- saving and calling out ----------

    /** Move the instance to a state and save it. */
    method Enter(state: State)
      requires Valid()
      modifies this`inst, this`stored, this`trace
      ensures Valid() && inst == old(inst).(state := state) && stored == Some(inst)
    {
      inst := inst.(state := state);
      SameStatuses(def, old(inst), inst, log, undoing);
      SameInAnyState(def, env, old(inst), state);
      Persist();
    }

    method Persist()
      requires Valid()
      modifies this`stored, this`trace
      ensures Valid() && stored == Some(inst)
    {
      ChainIs(def, trace);
      stored := Some(inst);
      Remember();
    }

    /** The process has got to another durable situation. */
    method Remember()
      requires Chain(def, trace) && trace[0] == first && (resume || AllTidy(def, trace))
      requires Good(def, Durable(stored, log, undoing)) && Follows(trace[|trace| - 1], Durable(stored, log, undoing))
      requires resume || (stored.Some? ==> Tidy(def, stored.value))
      modifies this`trace
      ensures Chain(def, trace) && trace[0] == first && trace[|trace| - 1] == Durable(stored, log, undoing)
      ensures resume || AllTidy(def, trace)
    {
      var d := Durable(stored, log, undoing);
      ChainNext(def, trace, d);
      if !resume {
        AllTidyNext(def, trace, d);
      }
      trace := trace + [d];
    }

    /** Change the status of one step in memory. */
    method Mark(n: string, status: Status)
      requires Valid() && status != Compensating
      requires Unrepeatable(def, n) && n !in undoing ==> Starts(log, n) == 0 || Settled(def, n, status)
      requires Done(status) ==> inst.dryRun || Finish(n) in log
      requires HasParallel(def) || !Done(inst.Status(n)) || NoneFirm(def, inst)
      requires !resume ==> OnlyCompensating(inst, n)
      modifies this`inst
      ensures Valid() && inst == old(inst).With(n, status) && (!resume ==> NoneCompensating(inst))
    {
      StatusKeepsSound(def, inst, log, undoing, n, status);
      inst := inst.With(n, status);
      if !resume {
        SameEpochs(def, env, old(inst), n, status);
        NoneLeftCompensating(def, old(inst), n, status);
      }
    }

    /** Save a step as compensating; from now on it is no longer known whether it took effect. */
    method SaveCompensating(n: string)
      requires Valid() && MayBeUndone(def, n) && NoneFirm(def, inst)
      requires !resume ==> NoneCompensating(inst) && (HasParallel(def) || EarlierDone(def, inst, n))
      modifies this`inst, this`stored, this`undoing, this`trace
      ensures Valid() && inst == old(inst).With(n, Compensating) && stored == Some(inst) && n in undoing
    {
      ChainIs(def, trace);
      undoing := undoing + {n};
      ExcusedStaysSound(def, inst, log, old(undoing), {n});
      StatusKeepsSound(def, inst, log, undoing, n, Compensating);
      inst := inst.With(n, Compensating);
      if !resume {
        SameEpochs(def, env, old(inst), n, Compensating);
        OneCompensating(def, old(inst), n);
      }
      stored := Some(inst);
      assert StoredAs(Durable(stored, log, undoing), n, Compensating);
      Remember();
    }

    /** List a step as completed, with the epoch its resource had. */
    method Complete(n: string, epoch: nat)
      requires Valid() && n in def.steps && (inst.dryRun || Finish(n) in log)
      requires HasParallel(def) || EarlierDone(def, inst, n)
      requires resume || WasSeen(def, env, n, epoch)
      modifies this`inst
      ensures Valid() && inst == Listed(old(inst), n, epoch)
    {
      CompletionKeepsSound(def, inst, log, undoing, n, epoch);
      inst := Listed(inst, n, epoch);
      if !resume {
        ListedKeepsSeen(def, env, old(inst), n, epoch);
      }
    }

    /** Something happens outside that is on record, other than the start of an action. */
    method Note(e: Event)
      requires Valid() && !e.Start? && OnRecord(Durable(stored, log, undoing), e)
      requires Witnessed(def, env, e) && Caused(def, e, log)
      modifies this`log, this`trace
      ensures Valid() && log == old(log) + [e]
    {
      ChainIs(def, trace);
      EventKeepsOrder(def, log, e);
      EventKeepsSound(def, inst, log, undoing, e);
      EventKeepsSound(def, stored.value, log, undoing, e);
      HonestNext(def, env, first.log, log, e);
      StartedNext(log, e);
      if !resume {
        StoredIsTidy();
      }
      log := log + [e];
      Remember();
    }

    /** The action of `n` starts. */
    method NoteStart(n: string)
      requires Valid() && OnRecord(Durable(stored, log, undoing), Start(n)) && inst.Status(n) == Running
      requires MayStart(def, n, log) && MayBegin(def, env, checks, n)
      requires Unrepeatable(def, n) && n !in undoing ==> Starts(log, n) == 0
      modifies this`log, this`trace, this`checks
      ensures Valid() && log == old(log) + [Start(n)] && checks == old(checks) + [Begins(n)] && Ready()
      ensures KeepsNotes(old(checks), checks) && Noted(checks, n)
    {
      StartedNext(log, Start(n));
      BeginNext(def, env, checks, n);
      NotedNext(checks, Begins(n));
      LogStart(n);
      checks := checks + [Begins(n)];
    }

    method LogStart(n: string)
      requires Sound(def, inst, log, undoing) && Traced()
      requires OnRecord(Durable(stored, log, undoing), Start(n)) && inst.Status(n) == Running
      requires MayStart(def, n, log) && (Unrepeatable(def, n) && n !in undoing ==> Starts(log, n) == 0)
      modifies this`log, this`trace
      ensures Sound(def, inst, log, undoing) && Traced() && log == old(log) + [Start(n)]
    {
      ChainIs(def, trace);
      StartKeepsGood(n);
      HonestNext(def, env, first.log, log, Start(n));
      if !resume {
        StoredIsTidy();
      }
      log := log + [Start(n)];
      Remember();
    }

    lemma StartKeepsGood(n: string)
      requires Sound(def, inst, log, undoing) && Good(def, Durable(stored, log, undoing))
      requires OnRecord(Durable(stored, log, undoing), Start(n)) && inst.Status(n) == Running
      requires MayStart(def, n, log) && (Unrepeatable(def, n) && n !in undoing ==> Starts(log, n) == 0)
      ensures Sound(def, inst, log + [Start(n)], undoing) && Good(def, Durable(stored, log + [Start(n)], undoing))
    {
      EventKeepsOrder(def, log, Start(n));
      EventKeepsSound(def, inst, log, undoing, Start(n));
      EventKeepsSound(def, stored.value, log, undoing, Start(n));
    }

    lemma StoredIsTidy()
      requires Traced() && stored.Some? && !resume
      ensures Tidy(def, stored.value)
    {
      AllTidyAt(def, trace, |trace| - 1);
    }

    /** Ask the environment something that decides whether to go on. */
    method Ask(c: Check)
      requires Valid() && Going(def, env, checks) && !c.Begins? && (Timed(c) ==> c.at == tick)
      modifies this`checks, this`tick
      ensures tick == old(tick) + if Timed(c) then 1 else 0
      ensures Valid() && checks == old(checks) + [c] && (Going(def, env, checks) <==> !Stops(def, env, c))
      ensures old(Vetted(def, checks)) ==> Vetted(def, checks)
      ensures InRound(checks) <==> c.Cancelled? || old(InRound(checks))
      ensures NoneBegan(checks) <==> c.Cancelled? || old(NoneBegan(checks))
      ensures KeepsNotes(old(checks), checks)
    {
      AskNext(def, env, checks, c);
      NotedNext(checks, c);
      if Vetted(def, checks) {
        StaysVetted(def, checks, c);
      }
      checks := checks + [c];
      if Timed(c) {
        tick := tick + 1;
      }
    }

    /** The epochs of the first `k` named steps, looked up one after the other from time `t`. */
    predicate SeenFrom(names: seq<string>, k: nat, t: nat, epochs: map<string, nat>) {
      forall i :: 0 <= i < k && i < |names| ==>
        names[i] in def.steps && names[i] in epochs && epochs[names[i]] == SeenEpoch(def, env, names[i], t + i)
    }

    /** The epoch of a step's resource, if it has one and it can be looked up. */
    method CurrentEpoch(n: string) returns (epoch: Option<nat>)
      requires Valid() && n in def.steps
      modifies this`tick
      ensures Valid() && epoch == EpochAt(def, env, n, old(tick)) && tick == old(tick) + 1
    {
      epoch := None;
      if def.steps[n].resource != "" {
        epoch := env.epoch(tick, def.steps[n].resource);
      }
      tick := tick + 1;
    }

    // ---------- compensation ----------

    /** Compensation has come from `cp0` and `log0` to where it is, changing only what it may. */
    ghost predicate Undoing(cp0: Checkpoint, log0: seq<Event>)
      reads this`inst, this`log
    {
      OnlyStatuses(cp0, inst) && OnlyUndos(log0, log, cp0.dryRun)
    }

    /** In a run from scratch, what was completed from position `i` on has been undone, and nothing else. */
    ghost predicate UndoneDownTo(i: nat)
      reads this`inst, this`log
    {
      !resume ==>
        && NoDup(inst.completed) && UndoneFrom(def, inst, Undos(log), i)
        && NoneCompensating(inst) && Aligned(def, inst)
    }

    /** Undo one completed step; a stop leaves it as it is, or failed. */
    method CompensateStep(n: string, ghost i: nat) returns (stop: Option<Stop>)
      requires Valid() && stored.Some? && Next(def, inst, i, n) && NoneFirm(def, inst)
      requires UndoneDownTo(i)
      modifies this`inst, this`stored, this`log, this`undoing, this`trace, this`tick
      ensures Valid() && stored.Some? && Undoing(old(inst), old(log))
      ensures stop.None? ==> UndoneDownTo(i - 1)
      ensures !resume && stop.Some? ==> Unwound(def, inst, log, stop)
      ensures stop.Some? ==> StopExplained(def, env, stop.value)
      ensures var locked := def.steps[n].mutates && env.lockdown(old(tick));
              var current := EpochAt(def, env, n, old(tick) + if def.steps[n].mutates then 1 else 0);
              && (stop == Some(ByLockdown(n)) <==> locked)
              && (!locked && current.Some? && current.value > old(inst).Epoch(n) <==>
                  stop.Some? && stop.value.ByStaleEpoch?)
    {
      NothingMoved(inst, log);
      var epoch;
      stop, epoch := FindObstacle(n, i);
      if stop.None? {
        stop := CallCompensator(n, i, epoch);
      }
    }

    /** What keeps a step from being undone before its compensator is called, and the epoch of its resource. */
    method FindObstacle(n: string, ghost i: nat) returns (stop: Option<Stop>, epoch: Option<nat>)
      requires Valid() && Next(def, inst, i, n) && UndoneDownTo(i)
      modifies this`tick
      ensures Valid()
      ensures !resume && stop.Some? ==> Unwound(def, inst, log, stop)
      ensures stop.Some? ==> StopExplained(def, env, stop.value)
      ensures stop.None? ==> (exists t :: EpochAt(def, env, n, t) == epoch) &&
                             (def.steps[n].mutates ==> exists t :: !env.lockdown(t))
      ensures stop.None? && epoch.Some? ==> epoch.value <= inst.Epoch(n)
      ensures var locked := def.steps[n].mutates && env.lockdown(old(tick));
              var current := EpochAt(def, env, n, old(tick) + if def.steps[n].mutates then 1 else 0);
              && (stop == Some(ByLockdown(n)) <==> locked)
              && (!locked && current.Some? && current.value > inst.Epoch(n) <==>
                  stop.Some? && stop.value.ByStaleEpoch?)
    {
      epoch := None;
      if def.steps[n].mutates {
        var locked := env.lockdown(tick);
        tick := tick + 1;
        if locked {
          return Some(ByLockdown(n)), epoch;
        }
      }
      epoch := CurrentEpoch(n);
      if epoch.Some? && epoch.value > inst.Epoch(n) {
        return Some(ByStaleEpoch(n, epoch.value)), epoch;
      }
      return None, epoch;
    }

    method CallCompensator(n: string, ghost i: nat, epoch: Option<nat>) returns (stop: Option<Stop>)
      requires Valid() && stored.Some? && Next(def, inst, i, n) && (epoch.Some? ==> epoch.value <= inst.Epoch(n))
      requires NoneFirm(def, inst)
      requires exists t :: EpochAt(def, env, n, t) == epoch
      requires def.steps[n].mutates ==> exists t :: !env.lockdown(t)
      requires UndoneDownTo(i)
      modifies this`inst, this`stored, this`log, this`undoing, this`trace, this`tick
      ensures Valid() && stored.Some? && Undoing(old(inst), old(log))
      ensures stop.None? ==> UndoneDownTo(i - 1)
      ensures !resume && stop.Some? ==> Unwound(def, inst, log, stop)
      ensures stop.Some? ==> stop.value == ByFailure(n) && StopExplained(def, env, stop.value)
    {
      ghost var cp, undos := inst, Undos(log);
      assert n in inst.completed;
      if !resume {
        NextIsCompleted(def, cp, undos, i, n);
        NextIsLast(def, cp, undos, i, n);
      }
      var ok := CallOut(n, epoch);
      ghost var e := Undo(n, epoch, ok);
      OnlyItsStatus(cp, n, Compensating, if ok then Compensated else Failed);
      if !ok {
        MarkUndoFailed(n, i, cp, undos, e);
        return Some(ByFailure(n));
      }
      MarkCompensated(n, i, cp, undos, e);
      return None;
    }

    method MarkUndoFailed(n: string, ghost i: nat, ghost cp: Checkpoint, ghost undos: seq<Event>, ghost e: Event)
      requires Valid() && inst == cp.With(n, Compensating) && n in undoing && e.Undo? && e.step == n && !e.ok
      requires NoneFirm(def, inst) && (!resume ==> NoneCompensating(cp))
      requires !resume ==> UndoneFrom(def, cp, undos, i) && Next(def, cp, i, n) && cp.Status(n) == Completed
      requires !resume ==> !cp.dryRun && Undos(log) == undos + [e]
      modifies this`inst
      ensures Valid() && inst == cp.With(n, Compensating).With(n, Failed)
      ensures !resume ==> Unwound(def, inst, log, Some(ByFailure(n)))
    {
      if !resume {
        OnlyThisCompensating(cp, n);
      }
      Mark(n, Failed);
      if !resume {
        UndoFails(def, cp, undos, i, n, inst, e);
      }
    }

    method MarkCompensated(n: string, ghost i: nat, ghost cp: Checkpoint, ghost undos: seq<Event>, ghost e: Event)
      requires Valid() && inst == cp.With(n, Compensating) && n in undoing && (inst.dryRun || Finish(n) in log)
      requires NoneFirm(def, inst) && (!resume ==> NoneCompensating(cp))
      requires !resume ==> UndoneFrom(def, cp, undos, i) && Next(def, cp, i, n)
      requires !resume ==> if cp.dryRun then Undos(log) == undos else Undos(log) == undos + [e] && GoodCall(cp, e, n)
      modifies this`inst, this`stored, this`trace
      ensures Valid() && stored.Some? && inst == cp.With(n, Compensating).With(n, Compensated)
      ensures !resume ==> UndoneFrom(def, inst, Undos(log), i - 1) && NoneCompensating(inst)
    {
      if !resume {
        OnlyThisCompensating(cp, n);
      }
      Mark(n, Compensated);
      if !resume {
        UndoSucceeds(def, cp, undos, i, n, inst, Undos(log));
      }
      Persist();
    }

    /** Save the step as compensating and call its compensator, unless this is a dry run. */
    method CallOut(n: string, epoch: Option<nat>) returns (ok: bool)
      requires Valid() && HasCompensator(def, n) && n in inst.completed && NoneFirm(def, inst)
      requires !resume ==> NoneCompensating(inst) && (HasParallel(def) || EarlierDone(def, inst, n))
      requires exists t :: EpochAt(def, env, n, t) == epoch
      requires def.steps[n].mutates ==> exists t :: !env.lockdown(t)
      modifies this`inst, this`stored, this`log, this`undoing, this`trace, this`tick
      ensures Valid() && stored.Some? && inst == old(inst).With(n, Compensating) && n in undoing
      ensures inst.dryRun || Finish(n) in log
      ensures inst.dryRun ==> ok
      ensures OnlyUndos(old(log), log, inst.dryRun)
      ensures Undos(log) == Undos(old(log)) + if inst.dryRun then [] else [Undo(n, epoch, ok)]
      ensures !ok ==> exists t :: !env.compensator(t).Succeeded()
    {
      SaveCompensating(n);
      ok := true;
      if !inst.dryRun {
        ok := RunCompensator(n, epoch);
      }
    }

    method RunCompensator(n: string, epoch: Option<nat>) returns (ok: bool)
      requires Valid() && n in def.steps && OnRecord(Durable(stored, log, undoing), Undo(n, epoch, true))
      requires Finish(n) in log
      requires exists t :: EpochAt(def, env, n, t) == epoch
      requires def.steps[n].mutates ==> exists t :: !env.lockdown(t)
      modifies this`log, this`trace, this`tick
      ensures Valid() && log == old(log) + [Undo(n, epoch, ok)] && Undos(log) == Undos(old(log)) + [Undo(n, epoch, ok)]
      ensures ok <==> env.compensator(old(tick)).Succeeded()
    {
      ok := env.compensator(tick).Succeeded();
      tick := tick + 1;
      UndosNext(log, Undo(n, epoch, ok));
      Note(Undo(n, epoch, ok));
    }

    /** One round of the compensation loop, for the step completed at position i - 1. */
    method CompensateAt(i: nat, ghost cp0: Checkpoint, ghost log0: seq<Event>) returns (stop: Option<Stop>)
      requires Valid() && stored.Some? && 0 < i <= |inst.completed| && Undoing(cp0, log0) && NoneFirm(def, inst)
      requires UndoneDownTo(i)
      modifies this`inst, this`stored, this`log, this`undoing, this`trace, this`tick
      ensures Valid() && stored.Some? && Undoing(cp0, log0)
      ensures stop.None? ==> UndoneDownTo(i - 1)
      ensures !resume && stop.Some? ==> Unwound(def, inst, log, stop)
      ensures stop.Some? ==> StopExplained(def, env, stop.value)
    {
      var n := inst.completed[i - 1];
      if n !in def.steps || !def.steps[n].compensates {
        if !resume {
          SkipsWithoutCompensator(def, inst, Undos(log), i);
        }
        return None;
      }
      if !resume {
        NextIsCompleted(def, inst, Undos(log), i, n);
      }
      if inst.Status(n) == Compensated {
        return None;
      }
      stop := CompensateStep(n, i);
      UndoingOn(cp0, log0, old(inst), old(log), inst, log);
    }

    /** Call the compensators of the completed steps, latest completion first. */
    method Compensate() returns (stop: Option<Stop>)
      requires Valid() && NoneFirm(def, inst) && (!resume ==> Unwindable(def, inst, log))
      modifies this`inst, this`stored, this`log, this`undoing, this`trace, this`tick
      ensures Valid() && Undoing(old(inst), old(log))
      ensures !resume ==> Unwound(def, inst, log, stop)
      ensures stop.Some? ==> StopExplained(def, env, stop.value)
    {
      Enter(StateCompensating);
      if !resume {
        UnwindableInAnyState(def, old(inst), log, StateCompensating);
        NothingUndone(def, inst, log);
      }
      stop := CompensateAll();
    }

    method CompensateAll() returns (stop: Option<Stop>)
      requires Valid() && stored.Some? && NoneFirm(def, inst) && UndoneDownTo(|inst.completed|)
      modifies this`inst, this`stored, this`log, this`undoing, this`trace, this`tick
      ensures Valid() && Undoing(old(inst), old(log))
      ensures !resume ==> Unwound(def, inst, log, stop)
      ensures stop.Some? ==> StopExplained(def, env, stop.value)
    {
      var i := |inst.completed|;
      while i > 0
        invariant Valid() && stored.Some? && 0 <= i <= |inst.completed| && Undoing(old(inst), old(log))
        invariant UndoneDownTo(i)
      {
        stop := CompensateAt(i, old(inst), old(log));
        if stop.Some? {
          return;
        }
        i := i - 1;
      }
      return None;
    }

    // ---------- failing ----------

    /** Compensate, then settle the instance as failed or as needing intervention. */
    method Unwind(failure: Result) returns (r: Result)
      requires Valid() && NoneFirm(def, inst) && (failure.StepFailed? || failure.NotRetryableFailed?)
      requires Explained(def, env, hasOperationID, resume, failure)
      requires !resume ==> Unwindable(def, inst, log) && Accounted(def, inst, log) && FirstFailed(log, failure.step)
      modifies this`inst, this`stored, this`log, this`undoing, this`trace, this`tick
      ensures Valid() && (r == failure || r.Uncompensated?) && Reported(r) && Undoing(old(inst), old(log))
      ensures !resume ==> Ended(def, inst, log, r)
    {
      var stop := Compensate();
      ghost var cp := inst;
      r := Settle(stop, failure);
      if !resume {
        UnwindingEnds(def, old(inst), old(log), cp, inst.state, log, stop, failure);
      }
    }

    /** Compensation has ended: the instance has failed, or needs intervention. */
    method Settle(stop: Option<Stop>, failure: Result) returns (r: Result)
      requires Valid() && (failure.StepFailed? || failure.NotRetryableFailed?)
      requires Explained(def, env, hasOperationID, resume, failure)
      requires stop.Some? ==> StopExplained(def, env, stop.value)
      modifies this`inst, this`stored, this`trace
      ensures Valid() && inst == old(inst).(state := inst.state) && Reported(r)
      ensures r == if stop.Some? then Uncompensated(stop.value) else failure
    {
      if stop.Some? {
        Enter(StateRequiresIntervention);
        r := Uncompensated(stop.value);
      } else {
        Enter(StateFailed);
        r := failure;
      }
    }

    method HandleStepFailure(n: string, o: Outcome) returns (r: Result)
      requires Valid() && n in def.steps && inst.Status(n) == Running && !o.Succeeded()
      requires !resume ==> Unwindable(def, inst, log) && Accounted(def, inst, log) && n !in inst.completed
      requires !resume ==> FirstFailed(log, n) && Fail(n, o) in log
      modifies this`inst, this`stored, this`log, this`undoing, this`trace, this`tick
      ensures Valid() && Reported(r) && (!resume ==> Ended(def, inst, log, r))
      ensures r == NeedsReconciliation(n) <==> Unclear(def, n, o)
      ensures !Unclear(def, n, o) && !r.Uncompensated? ==>
                r == if MayNotRetry(def, hasOperationID, n) then NotRetryableFailed(n) else StepFailed(n)
      ensures inst.completed == old(inst).completed && inst.dryRun == old(inst).dryRun
      ensures OnlyUndos(old(log), log, old(inst).dryRun)
      ensures n !in inst.completed ==> inst.Status(n) == if Unclear(def, n, o) then Reconcile else Failed
      ensures forall m | m !in inst.completed && m != n :: inst.Status(m) == old(inst).Status(m)
    {
      if o.ambiguous || def.steps[n].mode == RequiresReconciliation || o.fault == AmbiguousFault {
        if !resume {
          UnclearEnds(def, inst, log, n, o);
        }
        LeaveForReconciliation(n);
        return NeedsReconciliation(n);
      }
      r := FailAndUnwind(n);
    }

    method LeaveForReconciliation(n: string)
      requires Valid() && n in def.steps && !Done(inst.Status(n)) && (!resume ==> NoneCompensating(inst))
      modifies this`inst, this`stored, this`trace
      ensures Valid() && inst == old(inst).With(n, Reconcile).(state := StateRequiresReconciliation)
      ensures Reported(NeedsReconciliation(n))
    {
      Mark(n, Reconcile);
      Enter(StateRequiresReconciliation);
    }

    method FailAndUnwind(n: string) returns (r: Result)
      requires Valid() && n in def.steps && inst.Status(n) == Running && def.steps[n].mode != RequiresReconciliation
      requires !resume ==> Unwindable(def, inst, log) && Accounted(def, inst, log) && n !in inst.completed
      requires !resume ==> FirstFailed(log, n)
      modifies this`inst, this`stored, this`log, this`undoing, this`trace, this`tick
      ensures Valid() && Reported(r) && (!resume ==> Ended(def, inst, log, r))
      ensures || r.Uncompensated?
              || r == if MayNotRetry(def, hasOperationID, n) then NotRetryableFailed(n) else StepFailed(n)
      ensures Undoing(old(inst).With(n, Failed), old(log))
    {
      if !resume {
        MarkingKeepsAccount(def, inst, log, n, Failed);
      }
      OpenMeansNoneFirm(def, inst, n);
      Mark(n, Failed);
      r := Unwind(if MayNotRetry(def, hasOperationID, n) then NotRetryableFailed(n) else StepFailed(n));
    }

    /** Give up without undoing anything. */
    method Halt(state: State, r: Result)
      requires Valid() && (!resume ==> Fresh(def, inst, log))
      requires r.CancelledRun? || r.LockedOut? || r.CapabilityMissing?
      requires Fits(r, state) && Explained(def, env, hasOperationID, resume, r)
      modifies this`inst, this`stored, this`trace
      ensures Valid() && Reported(r) && (!resume ==> Ended(def, inst, log, r)) && inst == old(inst).(state := state)
    {
      Enter(state);
    }

    /** All steps are done. */
    method Conclude()
      requires Valid() && (!resume ==> Fresh(def, inst, log))
      modifies this`inst, this`stored, this`trace
      ensures Valid() && inst == old(inst).(state := StateCompleted) && stored == Some(inst)
      ensures !resume ==> Fresh(def, inst, log)
    {
      Enter(StateCompleted);
      FreshInAnyState(def, old(inst), StateCompleted, log);
    }

    /** Lockdown blocks a step that mutates. */
    method Blocked(n: string) returns (locked: bool)
      requires Valid() && Polled() && n in def.steps
      modifies this`tick, this`checks
      ensures Valid()
      ensures locked <==> def.steps[n].mutates && env.lockdown(old(tick))
      ensures locked ==> Explained(def, env, hasOperationID, resume, LockedOut(n))
      ensures locked ==> Heeded(def, env, checks, LockedOut(n))
      ensures !locked ==> Polled() && MayBegin(def, env, checks, n)
      ensures !locked ==> forall m | MayBegin(def, env, old(checks), m) :: MayBegin(def, env, checks, m)
      ensures KeepsNotes(old(checks), checks)
    {
      locked := false;
      if def.steps[n].mutates {
        locked := env.lockdown(tick);
        Ask(Locked(n, tick));
        ghost var c := Locked(n, old(tick));
        LockStaysAsked(old(checks), c, n);
        if !locked {
          forall m | MayBegin(def, env, old(checks), m) ensures MayBegin(def, env, checks, m) {
            AskKeepsMay(def, env, old(checks), c, m);
          }
        }
      }
      NoneBeganMeansMates(def, checks, n);
    }

    // ---------- resuming ----------

    /** A step whose process died inside its action. */
    method ResumeRunning(n: string) returns (err: Option<Result>)
      requires Valid() && n in def.steps && inst.Status(n) == Running && resume
      modifies this`inst, this`stored, this`log, this`undoing, this`trace, this`tick
      ensures Valid()
      ensures err.None? ==> log == old(log) && undoing == old(undoing) && inst == old(inst).With(n, Pending)
      ensures err.Some? <==> Refuses(def, hasOperationID, n, Running)
      ensures err.Some? ==> Reported(err.value)
      ensures err.Some? ==> (err.value == NeedsReconciliation(n) <==> MustReconcile(def, n, Running))
    {
      if def.steps[n].mode == NotRetryable || def.steps[n].mode == RequiresReconciliation {
        LeaveForReconciliation(n);
        return Some(NeedsReconciliation(n));
      }
      if def.steps[n].mode == RequiresOperationID && !hasOperationID {
        var r := FailAndUnwind(n);
        return Some(r);
      }
      Mark(n, Pending);
      return None;
    }

    /** A step that failed before: it may be tried again, unless its mode says otherwise. */
    method ResumeFailed(n: string) returns (err: Option<Result>)
      requires Valid() && n in def.steps && inst.Status(n) == Failed && resume && !HasParallel(def)
      modifies this`inst, this`stored, this`log, this`undoing, this`trace, this`tick
      ensures Valid()
      ensures err.None? ==> log == old(log) && undoing == old(undoing) && inst == old(inst).With(n, Pending)
      ensures err.Some? <==> MayNotRetry(def, hasOperationID, n)
      ensures err.Some? ==> Reported(err.value) && !err.value.NeedsReconciliation?
    {
      if MayNotRetry(def, hasOperationID, n) {
        OpenMeansNoneFirm(def, inst, n);
        var r := Unwind(NotRetryableFailed(n));
        return Some(r);
      }
      if Unrepeatable(def, n) && n !in undoing {
        UnsettledWasNotInvoked(def, inst, log, undoing, n);
      }
      Mark(n, Pending);
      return None;
    }

    /**
     Decide what an earlier attempt means for a step: skip it, give up, or go ahead. An unrepeatable step only goes
     ahead when its status shows that it was never invoked, or after it was stored as compensating.
     */
    method PrepareStepResume(n: string) returns (skip: bool, err: Option<Result>)
      requires Valid() && n in def.steps
      requires HasParallel(def) ==> inst.Status(n) != Failed && inst.Status(n) != Reconcile
      requires !resume ==> Fresh(def, inst, log)
      modifies this`inst, this`stored, this`log, this`undoing, this`trace, this`tick
      ensures Valid()
      ensures err.None? ==> log == old(log) && undoing == old(undoing) && (skip <==> Done(old(inst).Status(n)))
      ensures err.None? && skip ==> inst == old(inst)
      ensures err.None? && !skip ==> inst == old(inst) || inst == old(inst).With(n, Pending)
      ensures err.None? && !skip && Unrepeatable(def, n) && n !in undoing ==> !Settled(def, n, inst.Status(n))
      ensures !resume ==> err.None? && inst == old(inst) && (skip <==> n in inst.completed)
      ensures err.Some? <==> Refuses(def, hasOperationID, n, old(inst).Status(n))
      ensures err.Some? ==> (err.value == NeedsReconciliation(n) <==> MustReconcile(def, n, old(inst).Status(n)))
      ensures err.Some? ==> Reported(err.value)
    {
      skip, err := false, None;
      match inst.Status(n)
      case Completed => skip := true;
      case Compensated => skip := true;
      case Skipped => skip := true;
      case Failed =>
        err := ResumeFailed(n);
      case Running =>
        err := ResumeRunning(n);
      case Reconcile =>
        Enter(StateRequiresReconciliation);
        err := Some(NeedsReconciliation(n));
      case Pending =>
      case Compensating =>
    }

    // ---------- one step ----------

    /** Save the step as running and invoke its action, unless this is a dry run. */
    method Invoke(n: string) returns (epoch: nat, o: Outcome)
      requires Valid() && CanRun(def, inst, undoing, resume, n) && MayBegin(def, env, checks, n)
      requires !resume ==> NoneCompensating(inst)
      modifies this`inst, this`stored, this`log, this`trace, this`tick, this`checks
      ensures Valid() && inst == old(inst).With(n, Running) && stored == Some(inst) && Ready()
      ensures log == old(log) + if inst.dryRun then []
                                else [Start(n), if o.Succeeded() then Finish(n) else Fail(n, o)]
      ensures o == if inst.dryRun then OK else env.action(old(tick) + 1, n)
      ensures KeepsNotes(old(checks), checks) && (inst.dryRun || Noted(checks, n))
      ensures epoch == SeenEpoch(def, env, n, old(tick))
    {
      epoch := SaveRunning(n);
      o := OK;
      if !inst.dryRun {
        o := CallAction(n);
      }
    }

    /** Save the step as running, and look up the epoch of its resource. */
    method SaveRunning(n: string) returns (epoch: nat)
      requires Valid() && CanRun(def, inst, undoing, resume, n) && (!resume ==> NoneCompensating(inst))
      modifies this`inst, this`stored, this`trace, this`tick
      ensures Valid() && inst == old(inst).With(n, Running) && stored == Some(inst) && tick == old(tick) + 1
      ensures !inst.dryRun ==> MayStart(def, n, log)
      ensures !inst.dryRun && Unrepeatable(def, n) && n !in undoing ==> Starts(log, n) == 0
      ensures epoch == SeenEpoch(def, env, n, old(tick))
    {
      RunnableCanStart(def, inst, log, undoing, n);
      Mark(n, Running);
      Persist();
      var e := CurrentEpoch(n);
      epoch := if e.Some? then e.value else 0;
    }

    method CallAction(n: string) returns (o: Outcome)
      requires Valid() && inst.Status(n) == Running && !inst.dryRun && stored == Some(inst) && MayStart(def, n, log)
      requires Unrepeatable(def, n) && n !in undoing ==> Starts(log, n) == 0
      requires MayBegin(def, env, checks, n)
      modifies this`log, this`trace, this`tick, this`checks
      ensures Valid() && log == old(log) + [Start(n), if o.Succeeded() then Finish(n) else Fail(n, o)] && Ready()
      ensures o == env.action(old(tick), n) && KeepsNotes(old(checks), checks) && Noted(checks, n)
    {
      NoteStart(n);
      o := EndAction(n);
      StartThenEnd(old(log), n, if o.Succeeded() then Finish(n) else Fail(n, o));
    }

    method EndAction(n: string) returns (o: Outcome)
      requires Valid() && stored.Some? && !stored.value.dryRun && log != [] && log[|log| - 1] == Start(n)
      modifies this`log, this`trace, this`tick
      ensures Valid() && log == old(log) + [if o.Succeeded() then Finish(n) else Fail(n, o)]
      ensures o == env.action(old(tick), n)
    {
      o := env.action(tick, n);
      tick := tick + 1;
      assert Start(n) in log;
      Note(if o.Succeeded() then Finish(n) else Fail(n, o));
    }

    method RunStep(n: string) returns (err: Option<Result>)
      requires Valid() && CanRun(def, inst, undoing, resume, n) && (!resume ==> Fresh(def, inst, log))
      requires MayBegin(def, env, checks, n)
      modifies this
      ensures Valid() && Ready()
      ensures err.None? <==> inst.dryRun || env.action(old(tick) + 1, n).Succeeded()
      ensures KeepsNotes(old(checks), checks) && (inst.dryRun || Noted(checks, n))
      ensures err.None? ==>
                && inst == Listed(old(inst).With(n, Running), n, SeenEpoch(def, env, n, old(tick)))
                && stored == Some(inst) && undoing == old(undoing)
                && log == old(log) + if inst.dryRun then [] else [Start(n), Finish(n)]
      ensures err.None? && !resume ==> Fresh(def, inst, log)
      ensures err.Some? ==> Reported(err.value)
      ensures err.Some? ==> inst.completed == old(inst).completed && inst.dryRun == old(inst).dryRun
      ensures err.Some? && !resume ==> Ended(def, inst, log, err.value) && OnlyFails(log, n)
    {
      ghost var cp, log0 := inst, log;
      var epoch, o := Invoke(n);
      if !o.Succeeded() {
        var r := FailStep(n, o, cp, log0);
        return Some(r);
      }
      assert inst.dryRun || log[|log| - 1] == Finish(n);
      StaysEarlierDone(def, cp, n, Running);
      CompleteStep(n, epoch, cp, log0);
      return None;
    }

    method FailStep(n: string, o: Outcome, ghost cp: Checkpoint, ghost log0: seq<Event>) returns (r: Result)
      requires Valid() && n in def.steps && !o.Succeeded() && inst == cp.With(n, Running) && !inst.dryRun
      requires !resume ==> Fresh(def, cp, log0) && CanRun(def, cp, undoing, false, n)
      requires log == log0 + [Start(n), Fail(n, o)]
      modifies this`inst, this`stored, this`log, this`undoing, this`trace, this`tick
      ensures Valid() && Reported(r) && inst.completed == cp.completed && inst.dryRun == cp.dryRun
      ensures !resume ==> Ended(def, inst, log, r) && OnlyFails(log, n)
    {
      if !resume {
        FreshFails(def, cp, log0, n, o, inst, log);
      }
      r := HandleStepFailure(n, o);
      if !resume {
        UndosComeLater(log0, n, o, log, cp.dryRun);
      }
    }

    method CompleteStep(n: string, epoch: nat, ghost cp: Checkpoint, ghost log0: seq<Event>)
      requires Valid() && n in def.steps && inst == cp.With(n, Running) && (inst.dryRun || Finish(n) in log)
      requires resume || WasSeen(def, env, n, epoch)
      requires !resume ==> Fresh(def, cp, log0) && CanRun(def, cp, undoing, false, n)
      requires !resume ==> log == log0 + (if cp.dryRun then [] else [Start(n), Finish(n)])
      requires HasParallel(def) || EarlierDone(def, inst, n)
      modifies this`inst, this`stored, this`trace
      ensures Valid() && inst == Listed(cp.With(n, Running), n, epoch) && stored == Some(inst)
      ensures !resume ==> Fresh(def, inst, log)
    {
      Complete(n, epoch);
      if !resume {
        FreshNext(def, cp, log0, n, inst, log);
      }
      Persist();
    }

    // ---------- the sequential executor ----------

    /** The first `i` steps are done; a run from scratch has completed exactly these, in order. */
    ghost predicate InSequence(i: nat)
      reads this`inst, this`log
    {
      && i <= |def.order| && (forall j :: 0 <= j < i ==> Done(inst.Status(def.order[j])))
      && (!resume ==> Fresh(def, inst, log) && inst.completed == def.order[..i])
    }

    /** Nobody cancels and nothing is locked down. */
    ghost predicate Unhindered() {
      !Cancels(env) && !LocksDown(env)
    }

    method ExecuteSequential() returns (r: Result)
      requires Valid() && !HasParallel(def) && Ready()
      requires !resume ==> Fresh(def, inst, log) && inst.completed == []
      modifies this
      ensures Valid() && (r == Completion || Reported(r)) && Fits(r, inst.state) && stored == Some(inst)
      ensures !resume ==> inst.completed <= def.order
      ensures !resume && r != Completion ==> Ended(def, inst, log, r)
      ensures r == Completion ==> forall n | n in def.steps :: Done(inst.Status(n))
      ensures !resume && r == Completion ==> Fresh(def, inst, log) && inst.completed == def.order
      ensures !resume && AllWell(env) ==> r == Completion
      ensures Heeded(def, env, checks, r)
      ensures !resume ==> FailsNext(def, inst, log)
      ensures Unhindered() ==> GetsOn(old(inst))
    {
      var err := RunInOrder();
      if err.Some? {
        return err.value;
      }
      AllInOrder(def, inst);
      Conclude();
      return Completion;
    }

    /** Go through the steps in order, up to the first that ends the run. */
    method RunInOrder() returns (err: Option<Result>)
      requires Valid() && !HasParallel(def) && Ready()
      requires !resume ==> Fresh(def, inst, log) && inst.completed == []
      modifies this
      ensures Valid() && (err.None? ==> InSequence(|def.order|) && Ready())
      ensures err.Some? ==> Reported(err.value) && Heeded(def, env, checks, err.value)
      ensures err.Some? && !resume ==> BrokenOff(err.value)
      ensures Unhindered() ==> GetsOn(old(inst))
    {
      var i := 0;
      while i < |def.order|
        invariant 0 <= i <= |def.order| && Valid() && InSequence(i) && Ready() && GotOn(old(inst), i)
      {
        err := SequentialRound(i, old(inst));
        if err.Some? {
          return;
        }
        i := i + 1;
      }
      err := None;
    }

    /** How a run from scratch in order ends before the end. */
    ghost predicate BrokenOff(r: Result)
      reads this`inst, this`log
    {
      !AllWell(env) && Ended(def, inst, log, r) && inst.completed <= def.order && FailsNext(def, inst, log)
    }

    /** Before position `i`: nothing has been done, or the first step that was due has been started. */
    ghost predicate GotOn(cp0: Checkpoint, i: nat)
      reads this`inst, this`checks
    {
      Unhindered() && !cp0.dryRun && SomeDue(def, hasOperationID, cp0) ==>
        if i <= OpenFrom(def, cp0, 0) then inst == cp0 else Noted(checks, def.order[OpenFrom(def, cp0, 0)])
    }

    /** One round of the sequential loop. */
    method SequentialRound(i: nat, ghost cp0: Checkpoint) returns (err: Option<Result>)
      requires Valid() && !HasParallel(def) && i < |def.order| && InSequence(i) && Ready() && GotOn(cp0, i)
      modifies this
      ensures Valid() && (err.None? ==> InSequence(i + 1) && Ready() && GotOn(cp0, i + 1))
      ensures err.Some? ==> Reported(err.value) && Heeded(def, env, checks, err.value)
      ensures err.Some? && Unhindered() ==> GetsOn(cp0)
      ensures err.Some? && !resume ==> BrokenOff(err.value)
    {
      var cancelled := env.cancelled(tick);
      Ask(Cancelled(tick));
      if cancelled {
        HaltBefore(def.order[i], StateCancelled, CancelledRun);
        return Some(CancelledRun);
      }
      err := StepInOrder(i);
    }

    /** The step at position `i` was done already, or refused, or its action was started. */
    ghost predicate Tried(i: nat, cp0: Checkpoint, err: Option<Result>)
      requires i < |def.order|
      reads this`inst, this`checks
    {
      && (Done(cp0.Status(def.order[i])) ==> err.None? && inst == cp0)
      && (&& !Done(cp0.Status(def.order[i])) && !cp0.dryRun && def.order[i] in def.steps
          && !Refuses(def, hasOperationID, def.order[i], cp0.Status(def.order[i])) ==>
            Noted(checks, def.order[i]))
    }

    /** Resume or run the step at position `i`. */
    method StepInOrder(i: nat) returns (err: Option<Result>)
      requires Valid() && !HasParallel(def) && i < |def.order| && InSequence(i) && Polled()
      modifies this
      ensures Valid() && (err.None? ==> InSequence(i + 1) && Ready())
      ensures err.Some? ==> Reported(err.value) && Heeded(def, env, checks, err.value)
      ensures err.Some? && !resume ==> inst.completed == def.order[..i]
      ensures err.Some? && !resume ==> !AllWell(env) && Ended(def, inst, log, err.value) && OnlyFails(log, def.order[i])
      ensures Unhindered() ==> Tried(i, old(inst), err)
      ensures KeepsNotes(old(checks), checks)
    {
      var n := def.order[i];
      var skip;
      OrderFacts(def, i);
      EarlierInOrder(def, inst, i);
      skip, err := PrepareStepResume(n);
      if err.Some? || skip {
        return;
      }
      err := RunAlone(n);
    }

    /** Run one step by itself, unless lockdown blocks it. */
    method RunAlone(n: string) returns (err: Option<Result>)
      requires Valid() && CanRun(def, inst, undoing, resume, n) && (!resume ==> Fresh(def, inst, log)) && Polled()
      modifies this
      ensures Valid() && (err.None? ==> Ready())
      ensures err.None? ==> inst.completed == old(inst).completed + [n]
      ensures err.None? ==> forall m :: Done(inst.Status(m)) <==> m == n || Done(old(inst).Status(m))
      ensures err.None? && !resume ==> Fresh(def, inst, log)
      ensures err.Some? ==> Reported(err.value) && !AllWell(env) && inst.completed == old(inst).completed
      ensures err.Some? ==> Heeded(def, env, checks, err.value)
      ensures err.Some? && !resume ==> Ended(def, inst, log, err.value) && OnlyFails(log, n)
      ensures KeepsNotes(old(checks), checks) && (!LocksDown(env) && !inst.dryRun ==> Noted(checks, n))
      ensures inst.dryRun == old(inst).dryRun
    {
      var locked := HaltIfLocked(n);
      if locked {
        return Some(LockedOut(n));
      }
      err := RunUnlocked(n);
    }

    /** Lockdown ends the run before a step that mutates. */
    method HaltIfLocked(n: string) returns (locked: bool)
      requires Valid() && Polled() && n in def.steps && (!resume ==> Fresh(def, inst, log))
      modifies this`inst, this`stored, this`trace, this`tick, this`checks
      ensures Valid() && KeepsNotes(old(checks), checks) && (locked ==> LocksDown(env))
      ensures locked <==> def.steps[n].mutates && env.lockdown(old(tick))
      ensures if locked then inst == old(inst).(state := StateLockedDown) else inst == old(inst)
      ensures !locked ==> MayBegin(def, env, checks, n)
      ensures locked ==> Reported(LockedOut(n)) && Heeded(def, env, checks, LockedOut(n))
      ensures locked && !resume ==> Ended(def, inst, log, LockedOut(n)) && OnlyFails(log, n)
    {
      locked := Blocked(n);
      if locked {
        HaltBefore(n, StateLockedDown, LockedOut(n));
      }
    }

    /** Give up before the step `n`. */
    method HaltBefore(ghost n: string, state: State, r: Result)
      requires Valid() && (!resume ==> Fresh(def, inst, log))
      requires r.CancelledRun? || r.LockedOut?
      requires Fits(r, state) && Explained(def, env, hasOperationID, resume, r)
      modifies this`inst, this`stored, this`trace
      ensures Valid() && Reported(r) && inst == old(inst).(state := state)
      ensures !resume ==> Ended(def, inst, log, r) && OnlyFails(log, n)
    {
      if !resume {
        UntroubledMeansOnly(log, n);
      }
      Halt(state, r);
    }

    method RunUnlocked(n: string) returns (err: Option<Result>)
      requires Valid() && CanRun(def, inst, undoing, resume, n) && (!resume ==> Fresh(def, inst, log))
      requires MayBegin(def, env, checks, n)
      modifies this
      ensures Valid() && Ready() && KeepsNotes(old(checks), checks) && (inst.dryRun || Noted(checks, n))
      ensures err.None? ==> inst.completed == old(inst).completed + [n]
      ensures err.None? ==> forall m :: Done(inst.Status(m)) <==> m == n || Done(old(inst).Status(m))
      ensures err.None? && !resume ==> Fresh(def, inst, log)
      ensures err.Some? ==> Reported(err.value) && !AllWell(env) && inst.completed == old(inst).completed
      ensures err.Some? && !resume ==> Ended(def, inst, log, err.value) && OnlyFails(log, n)
      ensures inst.dryRun == old(inst).dryRun
    {
      ListedIsDone(inst, n, SeenEpoch(def, env, n, tick));
      err := RunStep(n);
    }

    // ---------- a wave of parallel steps ----------

    /** The steps of the wave are running, in memory and in the store. */
    ghost predicate AllRunning(names: set<string>)
      reads this`inst, this`stored
    {
      && stored.Some? && stored.value.dryRun == inst.dryRun
      && forall n | n in names :: inst.Status(n) == Running && stored.value.Status(n) == Running
    }

    /** During a wave: the moves made so far lead to the wave and the log at hand. */
    ghost predicate Airborne(log0: seq<Event>, all: set<string>, moves: seq<Move>, w: Wave)
      reads this`inst, this`stored, this`log, this`undoing, this`checks
    {
      && Ready() && Together(def, all) && AllMayBegin(def, env, checks, w.waiting) && w.waiting <= all
      && AllRunning(all) && AllCanStart(def, inst.dryRun, log0, undoing, all)
      && Legal(all, log0, inst.dryRun, maxParallel, moves)
      && FlightOf(all, log0, inst.dryRun, moves) == Flight(w, log)
      && Truthful(env, w)
    }

    /** A goroutine gets a slot: its action starts, or a dry run ends at once. */
    method Launch(n: string, w: Wave, ghost log0: seq<Event>, ghost all: set<string>, ghost moves: seq<Move>)
      returns (w': Wave, ghost moves': seq<Move>)
      requires Valid() && Airborne(log0, all, moves, w) && n in w.waiting && |w.running| < maxParallel
      modifies this`log, this`trace, this`checks
      ensures Valid() && Airborne(log0, all, moves', w') && Work(w') < Work(w)
    {
      AboutToMove(def, all, log0, undoing, inst.dryRun, maxParallel, moves, n);
      MoveNext(all, log0, inst.dryRun, maxParallel, moves, Take(n));
      moves' := moves + [Take(n)];
      if inst.dryRun {
        w' := w.Skipped(n, OK);
        SkipIsProgress(w, n, OK);
        StaysTruthful(env, w, n, OK);
      } else {
        w' := w.Launched(n);
        LaunchIsProgress(w, n);
        OthersMayBegin(def, env, checks, w.waiting, n, all);
        NoteStart(n);
      }
    }

    /** A running action ends. */
    method Land(n: string, w: Wave, ghost log0: seq<Event>, ghost all: set<string>, ghost moves: seq<Move>)
      returns (w': Wave, ghost moves': seq<Move>)
      requires Valid() && Airborne(log0, all, moves, w) && n in w.running
      modifies this`log, this`trace, this`tick
      ensures Valid() && Airborne(log0, all, moves', w') && Work(w') < Work(w)
    {
      var o := env.action(tick, n);
      tick := tick + 1;
      AboutToMove(def, all, log0, undoing, inst.dryRun, maxParallel, moves, n);
      MoveNext(all, log0, inst.dryRun, maxParallel, moves, Return(n, o));
      moves' := moves + [Return(n, o)];
      w' := w.Landed(n, o);
      LandIsProgress(w, n, o);
      StaysTruthful(env, w, n, o);
      Note(if o.Succeeded() then Finish(n) else Fail(n, o));
    }

    /** One move of some goroutine. */
    method Advance(w: Wave, ghost log0: seq<Event>, ghost all: set<string>, ghost moves: seq<Move>)
      returns (w': Wave, ghost moves': seq<Move>)
      requires Valid() && Airborne(log0, all, moves, w) && (w.waiting != {} || w.running != {}) && maxParallel > 0
      modifies this`log, this`trace, this`tick, this`checks
      ensures Valid() && Airborne(log0, all, moves', w') && Work(w') < Work(w)
    {
      if {
        case w.waiting != {} && |w.running| < maxParallel =>
          var n :| n in w.waiting;
          w', moves' := Launch(n, w, log0, all, moves);
        case w.waiting != {} && env.cancelled(tick) =>
          var n :| n in w.waiting;
          MoveNext(all, log0, inst.dryRun, maxParallel, moves, Leave(n));
          SkipIsProgress(w, n, GONE);
          StaysTruthful(env, w, n, GONE);
          w', moves', tick := w.Skipped(n, GONE), moves + [Leave(n)], tick + 1;
        case w.running != {} =>
          var n :| n in w.running;
          w', moves' := Land(n, w, log0, all, moves);
      }
    }

    /** Run the actions of a wave, at most `maxParallel` at a time, starting and ending in any order. */
    method RunActions(names: seq<string>) returns (w: Wave)
      requires Valid() && AllRunning(Elements(names)) && AllCanStart(def, inst.dryRun, log, undoing, Elements(names))
      requires Ready() && Together(def, Elements(names)) && AllMayBegin(def, env, checks, Elements(names))
      modifies this`log, this`trace, this`tick, this`checks
      ensures Valid() && Ready() && Flying(def, old(log), log, undoing, Elements(names), w, inst.dryRun)
      ensures w.outcomes.Keys == Elements(names) && Truthful(env, w)
    {
      ghost var log0, all, moves := log, Elements(names), [];
      w := Wave(Elements(names), {}, map[], {});
      while w.waiting != {} || w.running != {}
        invariant Valid() && Airborne(log0, all, moves, w)
        decreases Work(w)
      {
        w, moves := Advance(w, log0, all, moves);
      }
      EveryInterleaving(def, all, log0, undoing, inst.dryRun, maxParallel, moves);
    }

    method MarkNext(ghost cp0: Checkpoint, names: seq<string>, i: nat, epochs: map<string, nat>, ghost t: nat)
      returns (epochs': map<string, nat>)
      requires Valid() && HasParallel(def) && NoDup(names) && i < |names| && names[i] in def.steps
      requires !resume ==> NoneCompensating(inst)
      requires Marked(cp0, inst, names[..i]) && SeenFrom(names, i, t, epochs) && tick == t + i
      modifies this`inst, this`tick
      ensures Valid() && Marked(cp0, inst, names[..i + 1]) && SeenFrom(names, i + 1, t, epochs') && tick == t + i + 1
      ensures !resume ==> NoneCompensating(inst)
    {
      MarkedNext(cp0, inst, names, i);
      Mark(names[i], Running);
      var e := CurrentEpoch(names[i]);
      epochs' := epochs[names[i] := if e.Some? then e.value else 0];
    }

    /** Mark the steps of a wave as running, noting the epochs of their resources. */
    method MarkRunning(names: seq<string>) returns (epochs: map<string, nat>)
      requires Valid() && HasParallel(def) && NoDup(names) && forall i :: 0 <= i < |names| ==> names[i] in def.steps
      requires !resume ==> NoneCompensating(inst)
      modifies this`inst, this`tick
      ensures Valid() && Marked(old(inst), inst, names)
      ensures SeenFrom(names, |names|, old(tick), epochs)
    {
      epochs := map[];
      var i := 0;
      while i < |names|
        invariant 0 <= i <= |names| && Valid() && Marked(old(inst), inst, names[..i]) && tick == old(tick) + i
        invariant SeenFrom(names, i, old(tick), epochs) && (!resume ==> NoneCompensating(inst))
      {
        epochs := MarkNext(old(inst), names, i, epochs, old(tick));
        i := i + 1;
      }
      assert names[..i] == names;
    }

    /** The outcome of a step may be applied: a success did happen, at a known epoch. */
    ghost predicate Applicable(n: string, outcomes: map<string, Outcome>, epochs: map<string, nat>)
      reads this`inst, this`log
    {
      && n in def.steps && n in outcomes && n in epochs && WasSeen(def, env, n, epochs[n])
      && (outcomes[n].Succeeded() ==> inst.dryRun || Finish(n) in log)
    }

    /** One outcome: a success is listed as completed, a failure is noted if it is the first. */
    method ApplyOutcome(
        ghost cp0: Checkpoint, names: seq<string>, i: nat, outcomes: map<string, Outcome>, epochs: map<string, nat>,
        fail: Option<string>)
      returns (fail': Option<string>)
      requires Valid() && HasParallel(def) && i < |names| && Applicable(names[i], outcomes, epochs)
      requires Applied(cp0, inst, names[..i], outcomes, epochs)
      modifies this`inst
      ensures Valid() && Applied(cp0, inst, names[..i + 1], outcomes, epochs) && inst.dryRun == old(inst).dryRun
      ensures fail' == if fail.None? && !outcomes[names[i]].Succeeded() then Some(names[i]) else fail
    {
      var n := names[i];
      AppliedNext(cp0, inst, names, i, outcomes, epochs);
      fail' := fail;
      if outcomes[n].Succeeded() {
        Complete(n, epochs[n]);
      } else if fail.None? {
        fail' := Some(n);
      }
    }

    /** List the successes as completed, in name order, and find the first failure. */
    method ApplyOutcomes(names: seq<string>, outcomes: map<string, Outcome>, epochs: map<string, nat>)
      returns (fail: Option<string>)
      requires Valid() && HasParallel(def) && forall i :: 0 <= i < |names| ==> Applicable(names[i], outcomes, epochs)
      modifies this`inst
      ensures Valid() && Applied(old(inst), inst, names, outcomes, epochs)
      ensures (forall i :: 0 <= i < |names| ==> names[i] in outcomes) && fail == FirstFailure(names, outcomes)
    {
      fail := None;
      var i := 0;
      while i < |names|
        invariant 0 <= i <= |names| && Valid() && inst.dryRun == old(inst).dryRun
        invariant Applied(old(inst), inst, names[..i], outcomes, epochs) && fail == FirstFailure(names[..i], outcomes)
      {
        FirstFailureNext(names, i, outcomes);
        assert Applicable(names[i], outcomes, epochs);
        fail := ApplyOutcome(old(inst), names, i, outcomes, epochs, fail);
        i := i + 1;
      }
      assert names[..i] == names;
    }

    /** Mark the other steps of the wave that are still running as failed. */
    method FailSiblings(names: seq<string>, fail: string)
      requires Valid() && HasParallel(def) && (!resume ==> NoneCompensating(inst))
      modifies this`inst
      ensures Valid() && SiblingsFailed(old(inst), inst, names, fail)
    {
      var i := 0;
      while i < |names|
        invariant 0 <= i <= |names| && Valid() && SiblingsFailed(old(inst), inst, names[..i], fail)
        invariant !resume ==> NoneCompensating(inst)
      {
        SiblingsFailedNext(old(inst), inst, names, i, fail);
        if names[i] != fail && inst.Status(names[i]) == Running {
          Mark(names[i], Failed);
        }
        i := i + 1;
      }
      assert names[..i] == names;
    }

    /** Lockdown blocks none of the first `i` steps. */
    ghost predicate Cleared(names: seq<string>, i: nat)
      reads this`checks
    {
      forall j :: 0 <= j < i && j < |names| ==> MayBegin(def, env, checks, names[j])
    }

    method ClearNext(names: seq<string>, i: nat) returns (locked: bool)
      requires Valid() && Polled() && Cleared(names, i) && i < |names| && names[i] in def.steps
      modifies this`tick, this`checks
      ensures Valid() && (!locked ==> Polled() && Cleared(names, i + 1))
      ensures locked ==> Explained(def, env, hasOperationID, resume, LockedOut(names[i]))
      ensures locked ==> Heeded(def, env, checks, LockedOut(names[i]))
    {
      locked := Blocked(names[i]);
    }

    /** The first step of the wave that lockdown blocks. */
    method FindBlocked(names: seq<string>) returns (blocked: Option<string>)
      requires Valid() && Polled() && forall i :: 0 <= i < |names| ==> names[i] in def.steps
      modifies this`tick, this`checks
      ensures Valid()
      ensures blocked.Some? ==> Explained(def, env, hasOperationID, resume, LockedOut(blocked.value))
      ensures blocked.Some? ==> Heeded(def, env, checks, LockedOut(blocked.value))
      ensures blocked.None? ==> Ready() && AllMayBegin(def, env, checks, Elements(names))
    {
      var i := 0;
      while i < |names|
        invariant 0 <= i <= |names| && Valid() && Polled() && Cleared(names, i)
      {
        var locked := ClearNext(names, i);
        if locked {
          return Some(names[i]);
        }
        i := i + 1;
      }
      return None;
    }

    /** Save the wave as running, run its actions, and apply their outcomes in name order. */
    method RunWave(batch: seq<string>)
      returns (names: seq<string>, w: Wave, epochs: map<string, nat>, fail: Option<string>)
      requires Valid() && HasParallel(def) && NoDup(batch) && (!resume ==> NoneCompensating(inst))
      requires forall i :: 0 <= i < |batch| ==> CanRun(def, inst, undoing, resume, batch[i])
      requires Ready() && Together(def, Elements(batch)) && AllMayBegin(def, env, checks, Elements(batch))
      modifies this`inst, this`stored, this`log, this`trace, this`tick, this`checks
      ensures Valid() && Ready() && multiset(names) == multiset(batch) && Ascending(names)
      ensures Flying(def, old(log), log, undoing, Elements(names), w, inst.dryRun)
      ensures w.outcomes.Keys == Elements(names) && Ran(old(inst), inst, names, w.outcomes, epochs)
      ensures Truthful(env, w)
      ensures SeenFrom(batch, |batch|, old(tick), epochs)
      ensures (forall i :: 0 <= i < |names| ==> names[i] in w.outcomes) && fail == FirstFailure(names, w.outcomes)
    {
      ghost var cp0 := inst;
      assert AllCanStart(def, inst.dryRun, log, undoing, Elements(batch)) by {
        forall n | n in Elements(batch) ensures CanStart(def, inst.dryRun, log, undoing, n) {
          RunnableCanStart(def, inst, log, undoing, n);
        }
      }
      epochs := MarkRunning(batch);
      ghost var cp1 := inst;
      Persist();
      w := RunActions(batch);
      names := SortStrings(batch);
      PermutationKeeps(batch, names);
      fail := ApplyWave(batch, names, w, epochs, old(log), old(tick));
      MarkedThenApplied(cp0, cp1, inst, batch, names, w.outcomes, epochs);
    }

    method ApplyWave(
        ghost batch: seq<string>, names: seq<string>, w: Wave, epochs: map<string, nat>, ghost log0: seq<Event>,
        ghost t: nat)
      returns (fail: Option<string>)
      requires Valid() && HasParallel(def) && Elements(names) == Elements(batch) && SeenFrom(batch, |batch|, t, epochs)
      requires Batched(log0, log, w.begun, w.outcomes, inst.dryRun) && w.outcomes.Keys == Elements(names)
      modifies this`inst, this`stored, this`trace
      ensures Valid() && Applied(old(inst), inst, names, w.outcomes, epochs)
      ensures (forall i :: 0 <= i < |names| ==> names[i] in w.outcomes) && fail == FirstFailure(names, w.outcomes)
    {
      forall i | 0 <= i < |names| ensures Applicable(names[i], w.outcomes, epochs) {
        assert names[i] in Elements(batch) && names[i] in w.outcomes.Keys;
        var j :| 0 <= j < |batch| && batch[j] == names[i];
        assert epochs[batch[j]] == SeenEpoch(def, env, batch[j], t + j);
        assert Left(log, w.begun, inst.dryRun, names[i], w.outcomes[names[i]]);
      }
      fail := ApplyOutcomes(names, w.outcomes, epochs);
      Persist();
    }

    /** Every step of the wave that was never completed is marked failed, except for `fail`. */
    ghost predicate OthersFailed(names: seq<string>, fail: string)
      reads this`inst
    {
      forall n | n in names && n != fail && n !in inst.completed :: inst.Status(n) == Failed
    }

    /** The end of a wave in which some action failed: its siblings fail with it, then the failure is handled. */
    method FailWave(names: seq<string>, fail: string, o: Outcome) returns (r: Result)
      requires Valid() && HasParallel(def) && fail in def.steps && inst.Status(fail) == Running && !o.Succeeded()
      requires o.fault == Interrupted ==> Cancels(env)
      requires !resume ==> Unwindable(def, inst, log) && Accounted(def, inst, log) && fail !in inst.completed
      requires !resume && o.fault != Interrupted ==> FirstFailed(log, fail) && Fail(fail, o) in log
      requires forall n | n in names && n !in inst.completed :: inst.Status(n) == Running
      modifies this`inst, this`stored, this`log, this`undoing, this`trace, this`tick
      ensures Valid() && Reported(r) && (!resume ==> Ended(def, inst, log, r))
      ensures r == CancelledRun <==> o.fault == Interrupted
      ensures inst.completed == old(inst).completed && OnlyUndos(old(log), log, old(inst).dryRun)
      ensures OthersFailed(names, fail)
    {
      FailSiblings(names, fail);
      if !resume {
        SiblingsKeepAccount(def, old(inst), inst, log, names, fail);
      }
      Persist();
      if o.fault == Interrupted {
        CancelWave();
        return CancelledRun;
      }
      r := HandleStepFailure(fail, o);
    }

    method CancelWave()
      requires Valid() && Cancels(env) && (!resume ==> Accounted(def, inst, log) && Undos(log) == [])
      modifies this`inst, this`stored, this`trace
      ensures Valid() && inst == old(inst).(state := StateCancelled) && Reported(CancelledRun)
      ensures !resume ==> Ended(def, inst, log, CancelledRun)
    {
      Enter(StateCancelled);
    }

    method RunParallelBatch(batch: seq<string>, ghost group: string) returns (err: Option<Result>)
      requires Valid() && HasParallel(def) && NoDup(batch) && group != ""
      requires forall i :: 0 <= i < |batch| ==> CanRun(def, inst, undoing, resume, batch[i])
      requires forall i :: 0 <= i < |batch| ==> batch[i] in def.steps && def.steps[batch[i]].group == group
      requires (!resume ==> Fresh(def, inst, log)) && Polled()
      modifies this
      ensures Valid() && (err.None? ==> Ready()) && (err.Some? ==> Heeded(def, env, checks, err.value))
      ensures err.None? ==> forall n :: inst.Status(n) == if n in batch then Completed else old(inst).Status(n)
      ensures err.None? && !resume ==> Fresh(def, inst, log)
      ensures err.Some? ==> Reported(err.value) && !AllWell(env)
      ensures err.Some? && !resume ==> Ended(def, inst, log, err.value)
      ensures AppendsSome(old(inst).completed, inst.completed, batch)
      ensures err.Some? && !err.value.LockedOut? ==> exists fail :: fail in batch && OthersFailed(batch, fail)
    {
      var blocked := FindBlocked(batch);
      if blocked.Some? {
        Halt(StateLockedDown, LockedOut(blocked.value));
        AppendsNone(inst.completed, batch);
        return Some(LockedOut(blocked.value));
      }
      err := FlyWave(batch, group);
    }

    /** Run a wave that nothing blocks. */
    method FlyWave(batch: seq<string>, ghost group: string) returns (err: Option<Result>)
      requires Valid() && HasParallel(def) && NoDup(batch) && group != ""
      requires forall i :: 0 <= i < |batch| ==> CanRun(def, inst, undoing, resume, batch[i])
      requires forall i :: 0 <= i < |batch| ==> batch[i] in def.steps && def.steps[batch[i]].group == group
      requires (!resume ==> Fresh(def, inst, log)) && Ready() && AllMayBegin(def, env, checks, Elements(batch))
      modifies this
      ensures Valid() && Ready()
      ensures err.None? ==> forall n :: inst.Status(n) == if n in batch then Completed else old(inst).Status(n)
      ensures err.None? && !resume ==> Fresh(def, inst, log)
      ensures err.Some? ==> Reported(err.value) && !AllWell(env)
      ensures err.Some? && !resume ==> Ended(def, inst, log, err.value)
      ensures AppendsSome(old(inst).completed, inst.completed, batch)
      ensures err.Some? ==> exists fail :: fail in batch && OthersFailed(batch, fail)
    {
      ghost var cp0, log0 := inst, log;
      AreTogether(def, batch, group);
      if !resume {
        AreNewSteps(def, cp0, log0, undoing, batch, group);
      }
      var names, w, epochs, fail := RunWave(batch);
      PermutationKeeps(batch, names);
      SameElements(names, batch);
      FirstFailureIs(names, w.outcomes);
      WinnersAppended(cp0, inst, batch, names, w.outcomes, epochs);
      if fail.Some? {
        var r := SettleFailure(cp0, log0, names, group, w, epochs, fail.value);
        return Some(r);
      }
      NoFailureIsSuccess(names, w);
      WinnersAll(names, w);
      if !resume {
        WaveSucceeds(def, cp0, log0, inst, log, names, group, w, epochs);
      }
      return None;
    }

    method SettleFailure(
        ghost cp0: Checkpoint, ghost log0: seq<Event>, names: seq<string>, ghost group: string, w: Wave,
        ghost epochs: map<string, nat>, fail: string)
      returns (r: Result)
      requires Valid() && HasParallel(def) && NoDup(names) && Ascending(names)
      requires forall n | n in names :: n in def.steps
      requires Ran(cp0, inst, names, w.outcomes, epochs) && w.outcomes.Keys == Elements(names)
      requires w.Splits(Elements(names)) && Batched(log0, log, w.begun, w.outcomes, cp0.dryRun)
      requires Truthful(env, w)
      requires !resume ==> Fresh(def, cp0, log0) && NewSteps(def, cp0, names, group)
      requires exists k: nat :: FailsFirst(names, w.outcomes, k) && names[k] == fail
      modifies this`inst, this`stored, this`log, this`undoing, this`trace, this`tick
      ensures Valid() && Reported(r) && (!resume ==> Ended(def, inst, log, r))
      ensures inst.completed == old(inst).completed && OthersFailed(names, fail)
    {
      ghost var k: nat :| FailsFirst(names, w.outcomes, k) && names[k] == fail;
      FailedIsRunning(cp0, inst, names, w.outcomes, epochs, k);
      if !resume {
        WaveFails(def, cp0, log0, inst, log, names, group, w, epochs, k);
      }
      r := FailWave(names, fail, w.outcomes[fail]);
    }

    // ---------- the parallel executor ----------

    /** Look at the step at position `i`: it joins the ready steps if nothing stands in its way. */
    method Consider(i: nat, done: set<string>, ready: seq<string>) returns (ready': seq<string>, err: Option<Result>)
      requires Valid() && HasParallel(def) && i < |def.order|
      requires Collected(def, inst, undoing, resume, done, ready, i) && (!resume ==> Fresh(def, inst, log))
      modifies this`inst, this`stored, this`log, this`undoing, this`trace, this`tick
      ensures Valid() && (!resume ==> err.None? && inst == old(inst) && log == old(log))
      ensures err.None? ==> Collected(def, inst, undoing, resume, done, ready', i + 1)
      ensures err.Some? ==> Reported(err.value)
    {
      var n := def.order[i];
      ready', err := ready, None;
      OrderFacts(def, i);
      var open := DependenciesDone(n, done);
      if n in done || GivenUp(inst.Status(n)) || !open {
        CollectedPasses(def, inst, undoing, resume, done, ready, i);
        return;
      }
      ghost var cp := inst;
      var skip;
      skip, err := PrepareStepResume(n);
      if err.Some? {
        return;
      }
      assert !skip; // what is recorded as done is in `done`
      CollectedTakes(def, cp, inst, undoing, resume, done, ready, i);
      ready' := ready + [n];
    }

    method DependenciesDone(n: string, done: set<string>) returns (open: bool)
      requires n in def.steps
      ensures open <==> DepsDone(def, done, n)
    {
      var deps, i := def.steps[n].dependsOn, 0;
      while i < |deps|
        invariant 0 <= i <= |deps| && forall j :: 0 <= j < i ==> deps[j] in done
      {
        if deps[i] !in done {
          return false;
        }
        i := i + 1;
      }
      return true;
    }

    method CollectReady(done: set<string>) returns (ready: seq<string>, err: Option<Result>)
      requires Valid() && HasParallel(def) && DoneSet(def, inst, done) && (!resume ==> Fresh(def, inst, log))
      modifies this`inst, this`stored, this`log, this`undoing, this`trace, this`tick
      ensures Valid() && (!resume ==> err.None? && inst == old(inst) && log == old(log))
      ensures err.None? ==> Collected(def, inst, undoing, resume, done, ready, |def.order|)
      ensures err.Some? ==> Reported(err.value)
    {
      ready, err := [], None;
      var i := 0;
      while i < |def.order|
        invariant 0 <= i <= |def.order| && Valid() && Collected(def, inst, undoing, resume, done, ready, i)
        invariant err.None? && (!resume ==> inst == old(inst) && log == old(log))
      {
        ready, err := Consider(i, done, ready);
        if err.Some? {
          return;
        }
        i := i + 1;
      }
    }

    /** The step at position `j` is not done and was given up. */
    predicate StuckAt(done: set<string>, j: nat)
      reads this`inst
    {
      j < |def.order| && def.order[j] !in done && GivenUp(inst.Status(def.order[j]))
    }

    method GiveUpOn(n: string) returns (r: Result)
      requires Valid() && resume && n in def.steps && GivenUp(inst.Status(n))
      modifies this`inst, this`stored, this`trace
      ensures Valid() && Reported(r)
      ensures r == if old(inst).Status(n) == Failed then NotRetryableFailed(n) else NeedsReconciliation(n)
    {
      if inst.Status(n) == Failed {
        Enter(StateFailed);
        return NotRetryableFailed(n);
      }
      Enter(StateRequiresReconciliation);
      return NeedsReconciliation(n);
    }

    /** Nothing is ready: report the first step that was given up. The exit for when there is none is never taken. */
    method ReportStuck(done: set<string>) returns (r: Result, ghost j: nat)
      requires Valid() && resume && exists k: nat :: StuckAt(done, k)
      modifies this`inst, this`stored, this`trace
      ensures Valid() && Reported(r)
      ensures old(StuckAt(done, j)) && forall k: nat | k < j :: !old(StuckAt(done, k))
      ensures r == if old(inst).Status(def.order[j]) == Failed then NotRetryableFailed(def.order[j])
                   else NeedsReconciliation(def.order[j])
    {
      ghost var last: nat :| StuckAt(done, last);
      j := 0;
      var i := 0;
      while i < |def.order|
        invariant 0 <= i <= last && Valid() && inst == old(inst)
        invariant forall k: nat | k < i :: !StuckAt(done, k)
      {
        var n := def.order[i];
        assert DepsBefore(def, i);
        if n !in done && GivenUp(inst.Status(n)) {
          j := i;
          assert StuckAt(done, i);
          r := GiveUpOn(n);
          return;
        }
        assert !StuckAt(done, i);
        i := i + 1;
      }
      assert false;
    }

    /** Run the smallest parallel group among the ready steps, or else the first of them. */
    method RunNext(ready: seq<string>, done: set<string>)
      returns (batch: seq<string>, err: Option<Result>, ghost group: string)
      requires Valid() && HasParallel(def) && ready != []
      requires Collected(def, inst, undoing, resume, done, ready, |def.order|) && (!resume ==> Fresh(def, inst, log))
      requires Polled()
      modifies this
      ensures (err.None? ==> Ready()) && (err.Some? ==> Heeded(def, env, checks, err.value))
      ensures Valid() && batch != [] && forall n | n in batch :: n in ready
      ensures forall k :: 0 <= k < |ready| ==> ready[k] in def.steps
      ensures IsSmallestGroup(def, ready, group)
      ensures batch == if group == "" then [ready[0]] else InGroup(def, ready, group)
      ensures err.None? ==> forall n :: Done(inst.Status(n)) <==> n in batch || Done(old(inst).Status(n))
      ensures err.None? && !resume ==> Fresh(def, inst, log)
      ensures err.Some? ==> Reported(err.value) && !AllWell(env)
      ensures err.Some? && !resume ==> Ended(def, inst, log, err.value)
      ensures AppendsSome(old(inst).completed, inst.completed, batch)
    {
      assert forall k :: 0 <= k < |ready| ==> CanRun(def, inst, undoing, resume, ready[k]);
      var g := SmallestGroup(def, ready);
      group := g;
      GroupMembers(def, ready, g);
      if g == "" {
        batch := [ready[0]];
        err := RunAlone(ready[0]);
        AppendsOne(old(inst).completed, ready[0]);
      } else {
        batch, err := RunGroup(ready, g);
      }
    }

    method RunGroup(ready: seq<string>, group: string) returns (batch: seq<string>, err: Option<Result>)
      requires Valid() && HasParallel(def) && NoDup(ready) && group != ""
      requires forall k :: 0 <= k < |ready| ==> CanRun(def, inst, undoing, resume, ready[k])
      requires exists k :: 0 <= k < |ready| && ready[k] in def.steps && def.steps[ready[k]].group == group
      requires (!resume ==> Fresh(def, inst, log)) && Polled()
      modifies this
      ensures (err.None? ==> Ready()) && (err.Some? ==> Heeded(def, env, checks, err.value))
      ensures Valid() && batch != [] && batch == InGroup(def, ready, group)
      ensures err.None? ==> forall n :: Done(inst.Status(n)) <==> n in batch || Done(old(inst).Status(n))
      ensures err.None? && !resume ==> Fresh(def, inst, log)
      ensures err.Some? ==> Reported(err.value) && !AllWell(env)
      ensures err.Some? && !resume ==> Ended(def, inst, log, err.value)
      ensures AppendsSome(old(inst).completed, inst.completed, batch)
    {
      batch := Members(def, ready, group);
      GroupMembers(def, ready, group);
      ghost var k :| 0 <= k < |ready| && ready[k] in def.steps && def.steps[ready[k]].group == group;
      assert ready[k] in batch;
      forall i | 0 <= i < |batch| ensures CanRun(def, inst, undoing, resume, batch[i]) {
        assert batch[i] in batch;
      }
      err := RunParallelBatch(batch, group);
    }

    /** One round of the parallel loop: collect what is ready and run a part of it. */
    method ParallelRound(done: set<string>) returns (done': set<string>, err: Option<Result>)
      requires Valid() && HasParallel(def) && DoneSet(def, inst, done) && |done| < |def.order|
      requires (!resume ==> Fresh(def, inst, log)) && Ready()
      modifies this
      ensures Valid() && (err.None? ==> Ready()) && (err.Some? ==> Heeded(def, env, checks, err.value))
      ensures err.None? ==> DoneSet(def, inst, done') && done < done'
      ensures err.None? && !resume ==> Fresh(def, inst, log)
      ensures err.Some? ==> Reported(err.value)
      ensures err.Some? && !resume ==> !AllWell(env) && Ended(def, inst, log, err.value)
    {
      done' := done;
      var cancelled := env.cancelled(tick);
      Ask(Cancelled(tick));
      if cancelled {
        Halt(StateCancelled, CancelledRun);
        return done, Some(CancelledRun);
      }
      var ready;
      ready, err := CollectReady(done);
      if err.Some? {
        return;
      }
      if ready == [] {
        err := GetStuck(done);
        return;
      }
      ghost var cp, undoing0 := inst, undoing;
      var batch;
      ghost var group;
      batch, err, group := RunNext(ready, done);
      if err.None? {
        done' := done + Elements(batch);
        DoneGrows(def, cp, inst, undoing0, resume, done, ready, batch);
      }
    }

    /** Nothing is ready, which cannot happen in a run from scratch. */
    method GetStuck(done: set<string>) returns (err: Option<Result>)
      requires Valid() && |done| < |def.order| && Collected(def, inst, undoing, resume, done, [], |def.order|)
      requires !resume ==> Fresh(def, inst, log)
      modifies this`inst, this`stored, this`trace
      ensures Valid() && resume && err.Some? && Reported(err.value)
    {
      StuckMeansGivenUp(def, inst, undoing, resume, done);
      ghost var j: nat :| j < |def.order| && def.order[j] !in done && GivenUp(inst.Status(def.order[j]));
      assert StuckAt(done, j);
      var r;
      ghost var k;
      r, k := ReportStuck(done);
      return Some(r);
    }

    /** The steps already recorded as done. */
    method InitiallyDone() returns (done: set<string>)
      requires WellFormed(def)
      ensures DoneSet(def, inst, done)
    {
      done := {};
      var i := 0;
      while i < |def.order|
        invariant 0 <= i <= |def.order|
        invariant forall n :: n in done <==> n in def.order[..i] && Done(inst.Status(n))
      {
        if Done(inst.Status(def.order[i])) {
          done := done + {def.order[i]};
        }
        assert def.order[..i + 1] == def.order[..i] + [def.order[i]];
        i := i + 1;
      }
      assert def.order[..i] == def.order;
    }

    method ExecuteParallel() returns (r: Result)
      requires Valid() && HasParallel(def) && (!resume ==> Fresh(def, inst, log)) && Ready()
      modifies this
      ensures Valid() && (r == Completion || Reported(r)) && Fits(r, inst.state) && stored == Some(inst)
      ensures Heeded(def, env, checks, r)
      ensures !resume && r != Completion ==> Ended(def, inst, log, r)
      ensures r == Completion ==> forall n | n in def.steps :: Done(inst.Status(n))
      ensures !resume && r == Completion ==> Fresh(def, inst, log)
      ensures !resume && AllWell(env) ==> r == Completion
    {
      var done := InitiallyDone();
      while |done| < |def.order|
        invariant Valid() && DoneSet(def, inst, done) && (!resume ==> Fresh(def, inst, log)) && Ready()
        decreases |def.order| - |done|
      {
        var before := done;
        var err;
        done, err := ParallelRound(done);
        if err.Some? {
          return err.value;
        }
        ProperSubsetSize(before, done);
      }
      AllOfThem(def, inst, done);
      Conclude();
      return Completion;
    }

    // ---------- running ----------

    /** Every step with a resource must find the capabilities it needs. */
    method FindIncapable() returns (missing: Option<string>)
      requires Valid() && checks == []
      modifies this`checks, this`tick
      ensures Valid()
      ensures missing.Some? ==> Explained(def, env, hasOperationID, resume, CapabilityMissing(missing.value))
      ensures missing.Some? ==> Heeded(def, env, checks, CapabilityMissing(missing.value))
      ensures missing.None? ==> Ready()
      ensures missing.None? <==> forall n | n in def.steps && def.steps[n].resource != "" :: env.capable(n)
    {
      var i := 0;
      while i < |def.order|
        invariant 0 <= i <= |def.order| && Valid() && Going(def, env, checks) && VettedUpTo(i)
      {
        var capable := IsCapable(i);
        if !capable {
          return Some(def.order[i]);
        }
        i := i + 1;
      }
      assert forall n | n in def.steps :: n in def.order;
      VettedMeansCapable(def, env, checks);
      return None;
    }

    /** Whether the step at position `i` finds the capabilities it needs. */
    method IsCapable(i: nat) returns (capable: bool)
      requires Valid() && i < |def.order| && Going(def, env, checks) && VettedUpTo(i)
      modifies this`checks, this`tick
      ensures Valid() && (capable ==> Going(def, env, checks) && VettedUpTo(i + 1))
      ensures !capable ==> Explained(def, env, hasOperationID, resume, CapabilityMissing(def.order[i]))
      ensures !capable ==> Heeded(def, env, checks, CapabilityMissing(def.order[i]))
    {
      OrderFacts(def, i);
      var n := def.order[i];
      capable := true;
      if def.steps[n].resource != "" {
        Ask(Capable(n));
        assert checks[|checks| - 1] == Capable(n);
        capable := env.capable(n);
      }
    }

    ghost predicate VettedUpTo(i: nat)
      reads this`checks
    {
      forall j :: 0 <= j < i && j < |def.order| && def.order[j] in def.steps ==>
        def.steps[def.order[j]].resource == "" || Capable(def.order[j]) in checks
    }

    method UsesGroups() returns (parallel: bool)
      requires WellFormed(def)
      ensures parallel <==> HasParallel(def)
    {
      var i := 0;
      while i < |def.order|
        invariant 0 <= i <= |def.order|
        invariant forall j :: 0 <= j < i ==> def.order[j] in def.steps && def.steps[def.order[j]].group == ""
      {
        OrderFacts(def, i);
        if def.steps[def.order[i]].group != "" {
          return true;
        }
        i := i + 1;
      }
      assert forall n | n in def.steps :: n in def.order;
      return false;
    }

    /** The first step that is due has been started. */
    ghost predicate GetsOn(cp0: Checkpoint)
      reads this`checks
    {
      !cp0.dryRun && SomeDue(def, hasOperationID, cp0) ==> Noted(checks, def.order[OpenFrom(def, cp0, 0)])
    }

    /** Validate the capabilities, then execute with the executor the definition calls for. */
    method Execute() returns (r: Result)
      requires Valid() && (!resume ==> Fresh(def, inst, log) && inst.completed == []) && checks == []
      modifies this
      ensures Valid() && (r == Completion || Reported(r)) && Fits(r, inst.state) && stored == Some(inst)
      ensures !resume && r != Completion ==> Ended(def, inst, log, r)
      ensures r == Completion ==> forall n | n in def.steps :: Done(inst.Status(n))
      ensures !resume && r == Completion ==> Fresh(def, inst, log)
      ensures !resume && AllWell(env) ==> r == Completion
      ensures Heeded(def, env, checks, r)
      ensures !resume && !HasParallel(def) ==> inst.completed <= def.order && FailsNext(def, inst, log)
      ensures !HasParallel(def) && Unhindered() && (forall n :: env.capable(n)) ==> GetsOn(old(inst))
    {
      var missing := Validate();
      if missing.Some? {
        return CapabilityMissing(missing.value);
      }
      SameOpen(def, old(inst), StateRunning, 0);
      var parallel := UsesGroups();
      if parallel {
        r := ExecuteParallel();
      } else {
        r := ExecuteSequential();
      }
    }

    /** Ask for the capabilities; without them the run ends here. */
    method Validate() returns (missing: Option<string>)
      requires Valid() && (!resume ==> Fresh(def, inst, log) && inst.completed == []) && checks == []
      modifies this`inst, this`stored, this`trace, this`checks, this`tick
      ensures Valid() && stored == Some(inst) && inst == old(inst).(state := inst.state)
      ensures !resume ==> Accounted(def, inst, log)
      ensures missing.None? ==> Ready() && inst.state == StateRunning && (!resume ==> Fresh(def, inst, log))
      ensures missing.Some? ==> Reported(CapabilityMissing(missing.value)) && !AllWell(env)
      ensures missing.Some? ==> Heeded(def, env, checks, CapabilityMissing(missing.value))
      ensures missing.Some? ==> exists n :: !env.capable(n)
      ensures missing.Some? && !resume ==> Ended(def, inst, log, CapabilityMissing(missing.value))
      ensures missing.Some? && !resume ==> FailsNext(def, inst, log)
    {
      Enter(StateValidating);
      FreshInAnyState(def, old(inst), StateValidating, log);
      missing := FindIncapable();
      if missing.Some? {
        if !resume {
          UntroubledFailsNext(def, old(inst).(state := StateFailed), log);
        }
        Halt(StateFailed, CapabilityMissing(missing.value));
      } else {
        Enter(StateRunning);
        FreshInAnyState(def, old(inst), StateRunning, log);
      }
    }

    /** The process has just started: whatever the store holds fits what has happened. */
    ghost predicate Starting()
      reads this`inst, this`stored, this`log, this`undoing, this`trace, this`checks, this`tick
    {
      && WellFormed(def) && maxParallel > 0 && Traced() && Minded() && checks == []
      && (!resume ==> Valid() && Fresh(def, inst, log) && inst.completed == [] && first == FIRST)
    }

    /**
     Run from scratch, or resume from the store. However it goes, the durable situations on the way are a history.
     A run from scratch in which all goes well completes, with each action invoked exactly once. One with an ordinary
     failure, and nothing in the way of undoing, ends failed with every completed step undone, latest first. In
     general it ends as `Ended` says, and for the reason the result gives.
     */
    method Run() returns (r: Result)
      requires Starting()
      modifies this
      ensures Traced() && (r == NotFound <==> resume && old(stored).None?)
      ensures r != NotFound ==> Fits(r, inst.state) && stored == Some(inst)
      ensures r != NotFound ==> Explained(def, env, hasOperationID, resume, r)
      ensures r == Completion ==> forall n | n in def.steps :: Done(inst.Status(n))
      ensures !resume ==> EndsFromScratch(r)
      ensures !HasParallel(def) && r != NotFound && Unhindered() && (forall n :: env.capable(n)) ==>
                GetsOn(if resume then old(stored).value else old(inst))
      ensures Minded() && Heeded(def, env, checks, r)
    {
      if resume {
        if stored.None? {
          return NotFound;
        }
        ChainIs(def, trace);
        inst := stored.value;
        r := Execute();
      } else {
        r := RunNew();
      }
    }

    /**
     How a run from scratch ends. If it completes, each action was invoked exactly once. If actions failed, all in
     an ordinary way, and nothing was in the way of undoing, every completed step was undone, latest first. In
     general it ends as `Ended` says.
     */
    ghost predicate EndsFromScratch(r: Result)
      reads this`inst, this`log
    {
      && (r == Completion ==> Accounted(def, inst, log) && Untroubled(log) && EachOnce())
      && (r != Completion ==> Ended(def, inst, log, r) && EpochsSeen(def, env, inst))
      && (AllWell(env) ==> r == Completion)
      && (!HasParallel(def) ==> inst.completed <= def.order && FailsNext(def, inst, log))
      && (Calm(def, env) && OrdinaryFailure(def, log) ==>
            (r.StepFailed? || r.NotRetryableFailed?) && Unwound(def, inst, log, None) && FirstFailed(log, r.step))
    }

    ghost predicate EachOnce()
      reads this`inst, this`log
    {
      forall n | n in def.steps :: n in inst.completed && Starts(log, n) == if inst.dryRun then 0 else 1
    }

    method RunNew() returns (r: Result)
      requires Valid() && !resume && Fresh(def, inst, log) && inst.completed == [] && checks == [] && first == FIRST
      modifies this
      ensures Valid() && (r == Completion || Reported(r)) && Fits(r, inst.state) && stored == Some(inst)
      ensures r == Completion ==> forall n | n in def.steps :: Done(inst.Status(n))
      ensures EndsFromScratch(r) && Heeded(def, env, checks, r)
      ensures !HasParallel(def) && Unhindered() && (forall n :: env.capable(n)) ==> GetsOn(old(inst))
    {
      r := Execute();
      if r == Completion {
        AllCompleted(def, inst, log);
        assert !OrdinaryFailure(def, log);
      } else if Calm(def, env) && OrdinaryFailure(def, log) {
        OrdinaryFailureIsUndone(def, env, hasOperationID, inst, log, r);
      }
    }
  }

  // ---------- crashes ----------

  /** One process: what it runs in, and whether it crashes at its i-th durable situation. */
  datatype Process = Process(
    env: Environment, maxParallel: nat, hasOperationID: bool, crashes: (nat, Durable) -> bool)

  /** A history that starts before anything was stored or happened. */
  ghost predicate FromScratch(def: Def, history: seq<Durable>) {
    Chain(def, history) && history[0] == FIRST
  }

  /**
   By the end of a history no action started before the actions of its dependencies had finished. An unrepeatable
   step was started at most once, unless it may come to be undone and some situation has it stored as compensating.
   */
  ghost predicate AtMostOnce(def: Def, history: seq<Durable>)
    requires history != []
  {
    var log := history[|history| - 1].log;
    && InOrder(def, log)
    && (forall n | Unrepeatable(def, n) && !MayBeUndone(def, n) :: Starts(log, n) <= 1)
    && (forall n | Unrepeatable(def, n) ::
          Starts(log, n) <= 1 || exists i :: 0 <= i < |history| && StoredAs(history[i], n, Compensating))
  }

  /**
   One process after the other, the first from scratch and the others resuming, each crashing anywhere. In the end
   a step that must not be repeated was invoked at most once, unless it may come to be undone and was at some moment
   stored as compensating. No action started before the actions of its dependencies had finished.
   */
  method Lifetimes(def: Def, processes: seq<Process>, dryRun: bool) returns (history: seq<Durable>)
    requires WellFormed(def) && forall i :: 0 <= i < |processes| ==> processes[i].maxParallel > 0
    ensures FromScratch(def, history) && AtMostOnce(def, history)
  {
    history := [FIRST];
    ChainIs(def, history);
    var i := 0;
    while i < |processes|
      invariant 0 <= i <= |processes| && FromScratch(def, history) && (i == 0 ==> history == [FIRST])
    {
      ChainIs(def, history);
      var more;
      ghost var e, r;
      more, e, r := Lifetime(def, processes[i], i > 0, history[|history| - 1], dryRun);
      ChainGoesOn(def, history, more);
      history := history + more[1..];
      i := i + 1;
    }
    InvokedAtMostOnce(def, history);
  }

  lemma InvokedAtMostOnce(def: Def, history: seq<Durable>)
    requires FromScratch(def, history)
    ensures AtMostOnce(def, history)
  {
    var d := history[|history| - 1];
    ChainIs(def, history);
    forall n | Unrepeatable(def, n)
      ensures Starts(d.log, n) <= 1 || n in d.undoing
      ensures Starts(d.log, n) <= 1 || exists i :: 0 <= i < |history| && StoredAs(history[i], n, Compensating)
    {
      if n in d.undoing {
        UndoingWasStored(def, history, n);
      } else if d.stored.Some? {
        assert Shows(def, n, d.stored.value.Status(n), d.log, d.undoing);
      }
    }
  }

  /** How many of the situations `ds`, from the `i`-th on, the process gets to. */
  function Survived(p: Process, ds: seq<Durable>, i: nat): (k: nat)
    requires i < |ds|
    ensures i < k <= |ds| && (k < |ds| ==> p.crashes(k - 1, ds[k - 1]))
    ensures forall j :: i <= j < k - 1 ==> !p.crashes(j, ds[j])
    ensures !p.crashes(k - 1, ds[k - 1]) ==> k == |ds|
    decreases |ds| - i
  {
    if p.crashes(i, ds[i]) || i == |ds| - 1 then i + 1 else Survived(p, ds, i + 1)
  }

  /** One process: a run, up to where it crashes. */
  method Lifetime(def: Def, p: Process, resume: bool, d: Durable, dryRun: bool)
    returns (trace: seq<Durable>, ghost e: Engine, ghost r: Result)
    requires WellFormed(def) && p.maxParallel > 0 && Good(def, d) && (!resume ==> d == FIRST)
    ensures Chain(def, trace) && trace[0] == d
    ensures e.def == def && e.env == p.env && e.hasOperationID == p.hasOperationID && e.resume == resume && e.first == d
    ensures e.Traced() && trace == e.trace[..Survived(p, e.trace, 0)]
    ensures e.Minded() && Heeded(def, p.env, e.checks, r) && (r == NotFound <==> resume && d.stored.None?)
    ensures r != NotFound ==> Fits(r, e.inst.state) && Explained(def, p.env, p.hasOperationID, resume, r)
    ensures !resume ==> e.EndsFromScratch(r)
    ensures !HasParallel(def) && r != NotFound && e.Unhindered() && (forall n :: p.env.capable(n)) ==>
              e.GetsOn(if resume then d.stored.value else Checkpoint(StateCreated, map[], [], map[], dryRun))
  {
    var engine := new Engine(def, p.env, p.maxParallel, p.hasOperationID, resume, d, dryRun);
    var result := engine.Run();
    var k := Survived(p, engine.trace, 0);
    ChainPrefix(def, engine.trace, k);
    trace := engine.trace[..k];
    e, r := engine, result;
  }
}
