/** What a process asks before it calls an action, and that it heeds the answers. */
module WorkflowGuards {
  import opened Names
  import opened WorkflowRuns
  import opened WorkflowOutcomes

  /** A question put to the environment, with the time it was asked, or the start of an action. */
  datatype Check = Capable(step: string) | Cancelled(at: nat) | Locked(step: string, at: nat) | Begins(step: string)

  /** The answer forbids to go on. */
  predicate Stops(def: Def, env: Environment, c: Check) {
    match c
    case Capable(n) => !env.capable(n)
    case Cancelled(t) => env.cancelled(t)
    case Locked(_, t) => env.lockdown(t)
    case Begins(_) => false
  }

  /** No answer so far forbids to go on. */
  predicate Going(def: Def, env: Environment, checks: seq<Check>) {
    checks == [] || !Stops(def, env, checks[|checks| - 1])
  }

  /** Every step with a resource was asked for its capabilities. */
  ghost predicate Vetted(def: Def, checks: seq<Check>) {
    forall n | n in def.steps && def.steps[n].resource != "" :: Capable(n) in checks
  }

  /** A round begins when the process asks whether it was cancelled; one has begun. */
  predicate InRound(checks: seq<Check>) {
    checks != [] && (checks[|checks| - 1].Cancelled? || InRound(checks[..|checks| - 1]))
  }

  /** In this round only mates of `n` have begun. */
  predicate OnlyMates(def: Def, checks: seq<Check>, n: string) {
    checks == [] || checks[|checks| - 1].Cancelled? ||
    (&& (checks[|checks| - 1].Begins? ==> Mates(def, checks[|checks| - 1].step, n))
     && OnlyMates(def, checks[..|checks| - 1], n))
  }

  /** In this round nothing has begun yet. */
  predicate NoneBegan(checks: seq<Check>) {
    checks == [] || checks[|checks| - 1].Cancelled? ||
    (!checks[|checks| - 1].Begins? && NoneBegan(checks[..|checks| - 1]))
  }

  /** In this round it was asked whether lockdown blocks `n`. */
  predicate LockAsked(checks: seq<Check>, n: string) {
    checks != [] && !checks[|checks| - 1].Cancelled? &&
    ((checks[|checks| - 1].Locked? && checks[|checks| - 1].step == n) || LockAsked(checks[..|checks| - 1], n))
  }

  /**
   The action of `n` may begin: all capabilities are there, this round was not cancelled and has begun no action
   outside the parallel group of `n`, and lockdown does not block `n` if it mutates.
   */
  ghost predicate MayBegin(def: Def, env: Environment, checks: seq<Check>, n: string) {
    && n in def.steps && Going(def, env, checks) && Vetted(def, checks) && InRound(checks)
    && OnlyMates(def, checks, n) && (def.steps[n].mutates ==> LockAsked(checks, n))
  }

  predicate Timed(c: Check) {
    c.Cancelled? || c.Locked?
  }

  /** When the environment was last asked, if ever. */
  function LastAsked(checks: seq<Check>): int {
    if checks == [] then -1
    else if Timed(checks[|checks| - 1]) then checks[|checks| - 1].at
    else LastAsked(checks[..|checks| - 1])
  }

  /**
   Each question is a new one, nothing was asked or begun after an answer that forbids to go on, and actions began
   only when they might.
   */
  ghost predicate Obeyed(def: Def, env: Environment, checks: seq<Check>)
    decreases |checks|, 1
  {
    checks == [] || Heeds(def, env, checks[..|checks| - 1], checks[|checks| - 1])
  }

  ghost predicate Heeds(def: Def, env: Environment, checks: seq<Check>, c: Check)
    decreases |checks| + 1, 0
  {
    && Obeyed(def, env, checks) && Going(def, env, checks)
    && (c.Begins? ==> MayBegin(def, env, checks, c.step)) && (Timed(c) ==> LastAsked(checks) < c.at)
  }

  /** An answer that forbids to go on is the last one, and every question comes later than those before. */
  lemma {:induction false} AnswersAreHeeded(def: Def, env: Environment, checks: seq<Check>, i: nat, j: nat)
    requires Obeyed(def, env, checks) && i < j < |checks|
    ensures !Stops(def, env, checks[i]) && (Timed(checks[i]) && Timed(checks[j]) ==> checks[i].at < checks[j].at)
  {
    var init, last := checks[..|checks| - 1], checks[|checks| - 1];
    assert Heeds(def, env, init, last);
    if j < |init| {
      AnswersAreHeeded(def, env, init, i, j);
    } else {
      if i < |init| - 1 {
        AnswersAreHeeded(def, env, init, i, |init| - 1);
      }
      if Timed(checks[i]) {
        AskedBy(def, env, init, i);
      }
    }
  }

  lemma {:induction false} AskedBy(def: Def, env: Environment, checks: seq<Check>, i: nat)
    requires Obeyed(def, env, checks) && i < |checks| && Timed(checks[i])
    ensures checks[i].at <= LastAsked(checks)
  {
    if i < |checks| - 1 {
      assert Heeds(def, env, checks[..|checks| - 1], checks[|checks| - 1]);
      AskedBy(def, env, checks[..|checks| - 1], i);
    }
  }

  /** Once every step was asked for its capabilities and nothing forbids to go on, all of them are there. */
  lemma VettedMeansCapable(def: Def, env: Environment, checks: seq<Check>)
    requires Obeyed(def, env, checks) && Going(def, env, checks) && Vetted(def, checks)
    ensures forall m | m in def.steps && def.steps[m].resource != "" :: env.capable(m)
  {
    forall m | m in def.steps && def.steps[m].resource != "" ensures env.capable(m) {
      assert Capable(m) in checks;
      var i :| 0 <= i < |checks| && checks[i] == Capable(m);
      if i < |checks| - 1 {
        AnswersAreHeeded(def, env, checks, i, |checks| - 1);
      }
    }
  }

  /** The round that is going on began with a question at position `q`. */
  ghost predicate RoundSince(def: Def, checks: seq<Check>, n: string, q: nat) {
    && q < |checks| && checks[q].Cancelled?
    && (forall j :: q < j < |checks| ==>
          !checks[j].Cancelled? && (checks[j].Begins? ==> Mates(def, checks[j].step, n)))
    && (LockAsked(checks, n) ==> exists j :: q < j < |checks| && checks[j].Locked? && checks[j].step == n)
  }

  lemma {:induction false} RoundBegan(def: Def, checks: seq<Check>, n: string) returns (q: nat)
    requires InRound(checks) && OnlyMates(def, checks, n)
    ensures RoundSince(def, checks, n, q)
  {
    q := |checks| - 1;
    if !checks[|checks| - 1].Cancelled? {
      var init := checks[..|checks| - 1];
      q := RoundBegan(def, init, n);
      if LockAsked(init, n) {
        var j :| q < j < |init| && init[j].Locked? && init[j].step == n;
        assert checks[j] == init[j];
      }
    }
  }

  /**
   Before the action of `n` began, every capability was asked for and found, and, in the same round, the process
   asked whether it was cancelled and, if `n` mutates, whether lockdown blocks it; both answers were no. Since the
   first of these questions only mates of `n` have begun.
   */
  lemma ActionsBeginCleared(def: Def, env: Environment, checks: seq<Check>, p: nat) returns (q: nat)
    requires Obeyed(def, env, checks) && p < |checks| && checks[p].Begins?
    ensures var n := checks[p].step;
            && n in def.steps && (forall m | m in def.steps && def.steps[m].resource != "" :: env.capable(m))
            && RoundSince(def, checks[..p], n, q) && !env.cancelled(checks[q].at)
            && (def.steps[n].mutates ==> exists j :: q < j < p && IsClear(env, checks[j], n))
  {
    var n, init := checks[p].step, checks[..p];
    BeganAllowed(def, env, checks, p);
    q := RoundBegan(def, init, n);
    AnswersAreHeeded(def, env, checks, q, p);
    VettedMeansCapable(def, env, init);
    if def.steps[n].mutates {
      var j :| q < j < |init| && init[j].Locked? && init[j].step == n;
      AnswersAreHeeded(def, env, checks, j, p);
      assert IsClear(env, checks[j], n);
    }
  }

  /** The answer that lockdown does not block `n`. */
  predicate IsClear(env: Environment, c: Check, n: string) {
    c.Locked? && c.step == n && !env.lockdown(c.at)
  }

  lemma {:induction false} BeganAllowed(def: Def, env: Environment, checks: seq<Check>, p: nat)
    requires Obeyed(def, env, checks) && p < |checks| && checks[p].Begins?
    ensures Obeyed(def, env, checks[..p]) && MayBegin(def, env, checks[..p], checks[p].step)
  {
    var init, last := checks[..|checks| - 1], checks[|checks| - 1];
    assert Heeds(def, env, init, last);
    if p < |init| {
      BeganAllowed(def, env, init, p);
      assert init[..p] == checks[..p];
    }
  }

  /** The run ended for the reason the last answer gave, if that forbade to go on. */
  predicate Heeded(def: Def, env: Environment, checks: seq<Check>, r: Result) {
    Going(def, env, checks) ||
    match checks[|checks| - 1]
    case Capable(n) => r == CapabilityMissing(n)
    case Cancelled(_) => r == CancelledRun
    case Locked(n, _) => r == LockedOut(n)
    case Begins(_) => true
  }

  /** The steps whose actions began, in order, as noted here and as they happened. */
  function Begun(checks: seq<Check>): seq<string> {
    if checks == [] then [] else
      var last := checks[|checks| - 1];
      Begun(checks[..|checks| - 1]) + (if last.Begins? then [last.step] else [])
  }

  function Started(log: seq<Event>): seq<string> {
    if log == [] then [] else
      var last := log[|log| - 1];
      Started(log[..|log| - 1]) + (if last.Start? then [last.step] else [])
  }

  lemma StartedNext(log: seq<Event>, e: Event)
    ensures Started(log + [e]) == Started(log) + if e.Start? then [e.step] else []
  {
    assert (log + [e])[..|log|] == log;
  }

  /** The action of `n` is noted to have begun. */
  predicate Noted(checks: seq<Check>, n: string) {
    checks != [] && (checks[|checks| - 1] == Begins(n) || Noted(checks[..|checks| - 1], n))
  }

  ghost predicate KeepsNotes(checks: seq<Check>, checks': seq<Check>) {
    forall n {:trigger Noted(checks', n)} | Noted(checks, n) :: Noted(checks', n)
  }

  lemma NotedNext(checks: seq<Check>, c: Check)
    ensures KeepsNotes(checks, checks + [c]) && (c.Begins? ==> Noted(checks + [c], c.step))
  {
    assert (checks + [c])[..|checks|] == checks;
  }

  lemma {:induction false} NotedIsBegun(checks: seq<Check>, n: string)
    ensures Noted(checks, n) <==> n in Begun(checks)
  {
    if checks != [] {
      NotedIsBegun(checks[..|checks| - 1], n);
    }
  }

  lemma {:induction false} StartedCounts(log: seq<Event>, n: string)
    ensures multiset(Started(log))[n] == Starts(log, n)
  {
    if log != [] {
      StartedCounts(log[..|log| - 1], n);
    }
  }

  /** What is noted to have begun was started once more. */
  lemma NotedMeansStarted(log0: seq<Event>, log: seq<Event>, checks: seq<Check>, n: string)
    requires Started(log) == Started(log0) + Begun(checks) && Noted(checks, n)
    ensures Starts(log, n) > Starts(log0, n)
  {
    NotedIsBegun(checks, n);
    StartedCounts(log, n);
    StartedCounts(log0, n);
    assert multiset(Begun(checks))[n] > 0;
  }

  /** Another question. */
  lemma AskNext(def: Def, env: Environment, checks: seq<Check>, c: Check)
    requires Obeyed(def, env, checks) && Going(def, env, checks)
    requires !c.Begins? && (Timed(c) ==> LastAsked(checks) < c.at)
    ensures Obeyed(def, env, checks + [c]) && Begun(checks + [c]) == Begun(checks)
    ensures Going(def, env, checks + [c]) <==> !Stops(def, env, c)
    ensures c.Cancelled? ==> InRound(checks + [c]) && NoneBegan(checks + [c])
    ensures !c.Cancelled? ==> (InRound(checks + [c]) <==> InRound(checks))
    ensures !c.Cancelled? ==> (NoneBegan(checks + [c]) <==> NoneBegan(checks))
    ensures LastAsked(checks + [c]) == if Timed(c) then c.at else LastAsked(checks)
  {
    assert (checks + [c])[..|checks|] == checks;
    assert Heeds(def, env, checks, c);
  }

  /** What was cleared in this round stays so while more is asked. */
  lemma LockStaysAsked(checks: seq<Check>, c: Check, n: string)
    requires !c.Cancelled?
    ensures LockAsked(checks + [c], n) <==> LockAsked(checks, n) || (c.Locked? && c.step == n)
  {
    assert (checks + [c])[..|checks|] == checks;
  }

  lemma StaysVetted(def: Def, checks: seq<Check>, c: Check)
    requires Vetted(def, checks)
    ensures Vetted(def, checks + [c])
  {
    forall n | n in def.steps && def.steps[n].resource != "" ensures Capable(n) in checks + [c] {
      assert Capable(n) in checks;
    }
  }

  lemma {:induction false} NoneBeganMeansMates(def: Def, checks: seq<Check>, n: string)
    requires NoneBegan(checks)
    ensures OnlyMates(def, checks, n)
  {
    if checks != [] && !checks[|checks| - 1].Cancelled? {
      NoneBeganMeansMates(def, checks[..|checks| - 1], n);
    }
  }

  /** An action begins. */
  lemma BeginNext(def: Def, env: Environment, checks: seq<Check>, n: string)
    requires Obeyed(def, env, checks) && MayBegin(def, env, checks, n)
    ensures var checks' := checks + [Begins(n)];
            && Obeyed(def, env, checks') && Going(def, env, checks') && InRound(checks') && Vetted(def, checks')
            && Begun(checks') == Begun(checks) + [n] && LastAsked(checks') == LastAsked(checks)
  {
    assert (checks + [Begins(n)])[..|checks|] == checks;
    assert Heeds(def, env, checks, Begins(n));
    StaysVetted(def, checks, Begins(n));
  }

  /** A mate may still begin. */
  lemma MateMayBegin(def: Def, env: Environment, checks: seq<Check>, n: string, m: string)
    requires MayBegin(def, env, checks, m) && Mates(def, n, m)
    ensures MayBegin(def, env, checks + [Begins(n)], m)
  {
    assert (checks + [Begins(n)])[..|checks|] == checks;
    StaysVetted(def, checks, Begins(n));
    LockStaysAsked(checks, Begins(n), m);
  }

  /** What may begin may still begin after another question with a harmless answer. */
  lemma AskKeepsMay(def: Def, env: Environment, checks: seq<Check>, c: Check, n: string)
    requires MayBegin(def, env, checks, n) && !c.Cancelled? && !c.Begins? && !Stops(def, env, c)
    ensures MayBegin(def, env, checks + [c], n)
  {
    assert (checks + [c])[..|checks|] == checks;
    StaysVetted(def, checks, c);
    LockStaysAsked(checks, c, n);
  }

  ghost predicate AllMayBegin(def: Def, env: Environment, checks: seq<Check>, names: set<string>) {
    forall n | n in names :: MayBegin(def, env, checks, n)
  }

  /** The steps belong to one parallel group. */
  predicate Together(def: Def, names: set<string>) {
    forall m, n | m in names && n in names :: Mates(def, m, n)
  }

  lemma OthersMayBegin(def: Def, env: Environment, checks: seq<Check>, names: set<string>, n: string, all: set<string>)
    requires AllMayBegin(def, env, checks, names) && Together(def, all) && n in names && names <= all
    ensures AllMayBegin(def, env, checks + [Begins(n)], names - {n})
  {
    forall m | m in names - {n} ensures MayBegin(def, env, checks + [Begins(n)], m) {
      MateMayBegin(def, env, checks, n, m);
    }
  }

  lemma AreTogether(def: Def, names: seq<string>, group: string)
    requires group != "" && forall i :: 0 <= i < |names| ==> names[i] in def.steps && def.steps[names[i]].group == group
    ensures Together(def, Elements(names))
  {
  }
}
