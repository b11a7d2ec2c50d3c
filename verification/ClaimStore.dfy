/**
 The atomic claim stores (in-memory and Redis-local) as functions on their state: the claim records
 and the table of remembered operation results. The classes in MemoryBackend.dfy and
 RedisLocal.dfy are proved against `Apply`; this module proves what `Apply` keeps over whole runs.
 */
module ClaimStore {
  import opened ClaimRecords
  import opened ClaimMachine
  import opened ClaimRules

  datatype Store = Store(claims: map<string, ClaimRecord>, ops: map<string, Reply>)

  const EMPTY_STORE := Store(map[], map[])

  /** A claim nobody has asked for yet behaves like a fresh record. */
  function Lookup(s: Store, c: string): ClaimRecord {
    if c in s.claims then s.claims[c] else FreshRecord(c)
  }

  function Remember(ops: map<string, Reply>, id: string, reply: Reply): map<string, Reply> {
    if id == "" then ops else ops[id := reply]
  }

  predicate Remembered(s: Store, req: Request) {
    req.OperationID() != "" && req.OperationID() in s.ops
  }

  predicate Missing(s: Store, req: Request) {
    req.claim !in s.claims && !req.Acquire?
  }

  /** A release reports only its error. */
  function Report(req: Request, reply: Reply): Reply {
    if req.Release? then Reply(None, reply.err) else reply
  }

  /** Carry out a verdict on the up-to-date record `rec` of the requested claim. */
  function Settle(s: Store, req: Request, rec: ClaimRecord, v: Verdict): (Store, Reply)
    requires !req.Get?
  {
    var claims := s.claims[req.claim := rec];
    match v
    case Reject(err) => (Store(claims, s.ops), Reply(None, err))
    case Answer(reply) => (Store(claims, Remember(s.ops, req.op, reply)), reply)
    case Write(rec') =>
      var reply := Reply(Some(rec'), Ok);
      (Store(claims[req.claim := rec'], Remember(s.ops, req.op, reply)), Report(req, reply))
  }

  /** One backend call at time `now`: recall a remembered result, or expire, decide and record. */
  function Apply(d: Dialect, s: Store, req: Request, now: int): (Store, Reply) {
    if Remembered(s, req) then (s, Report(req, s.ops[req.OperationID()]))
    else if Missing(s, req) then (s, Reply(None, ErrClaimNotFound))
    else
      var rec := Refreshed(d, Lookup(s, req.claim), now);
      if req.Get? then (Store(s.claims[req.claim := rec], s.ops), Reply(Some(rec), Ok))
      else Settle(s, req, rec, Decide(d, req, rec, now))
  }

  ghost predicate NamesMatch(s: Store) {
    forall k | k in s.claims :: s.claims[k].name == k
  }

  ghost predicate ShowsStored(s: Store, req: Request, s': Store, reply: Reply) {
    && NamesMatch(s')
    && (|| reply.rec == None
        || reply.rec == Some(Lookup(s', req.claim))
        || (Remembered(s, req) && reply.rec == s.ops[req.op].rec))
    && (forall id | id in s'.ops ::
          || (id in s.ops && s'.ops[id] == s.ops[id])
          || s'.ops[id].rec == None
          || s'.ops[id].rec == Some(Lookup(s', req.claim)))
  }

  lemma SettleShowsStored(s: Store, req: Request, rec: ClaimRecord, v: Verdict)
    requires NamesMatch(s) && !req.Get? && rec.name == req.claim
    requires v.Write? ==> v.rec.name == req.claim
    requires v.Answer? ==> v.reply.rec == None || v.reply.rec == Some(rec)
    ensures var (s', reply) := Settle(s, req, rec, v); ShowsStored(s, req, s', reply)
  {
  }

  /** Every record that a call returns or newly remembers is the one now stored, under its own name. */
  lemma RepliesShowStoredRecords(d: Dialect, s: Store, req: Request, now: int)
    requires NamesMatch(s)
    ensures var (s', reply) := Apply(d, s, req, now); ShowsStored(s, req, s', reply)
  {
    if !Remembered(s, req) && !Missing(s, req) && !req.Get? {
      var rec := Refreshed(d, Lookup(s, req.claim), now);
      DecisionKeepsName(d, req, rec, now);
      SettleShowsStored(s, req, rec, Decide(d, req, rec, now));
    }
  }

  // ---------- runs ----------

  datatype Event = Event(req: Request, now: int)

  ghost predicate AllNamed(es: seq<Event>) {
    forall i :: 0 <= i < |es| ==> es[i].req.Named()
  }

  /** The store after a sequence of calls. */
  function Play(d: Dialect, s: Store, es: seq<Event>): Store {
    if es == [] then s
    else
      var last := es[|es| - 1];
      Apply(d, Play(d, s, es[..|es| - 1]), last.req, last.now).0
  }

  lemma PlayOne(d: Dialect, s: Store, es: seq<Event>, k: nat)
    requires k < |es|
    ensures Play(d, s, es[..k + 1]) == Apply(d, Play(d, s, es[..k]), es[k].req, es[k].now).0
  {
    assert es[..k + 1][..k] == es[..k];
  }

  function View(s: Store, c: string): Claim {
    Abs(Lookup(s, c))
  }

  predicate Acts(s: Store, req: Request, c: string) {
    req.claim == c && !Remembered(s, req) && !Missing(s, req)
  }

  /** What a call does to claim `c`, read on the abstract machine: expiry, then the request. */
  function LabelFor(d: Dialect, s: Store, e: Event, c: string): Label {
    if !Acts(s, e.req, c) then Label(false, None)
    else
      var before := Abs(Refreshed(d, Lookup(s, c), e.now));
      Label(Overdue(d, Lookup(s, c), e.now), ActOf(e.req, before, View(Apply(d, s, e.req, e.now).0, c)))
  }

  /** Each call is one step of the abstract machine on every claim. */
  lemma CallIsStep(d: Dialect, s: Store, e: Event, c: string)
    requires e.req.Named() && View(s, c).WellFormed()
    ensures Step(View(s, c), LabelFor(d, s, e, c), View(Apply(d, s, e.req, e.now).0, c))
  {
    if Acts(s, e.req, c) && !e.req.Get? {
      DecisionIsStep(d, e.req, Refreshed(d, Lookup(s, c), e.now), e.now);
    }
  }

  /** The claim after the first `i` calls. */
  ghost function ViewAt(d: Dialect, es: seq<Event>, c: string, i: nat): Claim
    requires i <= |es|
  {
    View(Play(d, EMPTY_STORE, es[..i]), c)
  }

  ghost function LabelAt(d: Dialect, es: seq<Event>, c: string, k: nat): Label
    requires k < |es|
  {
    LabelFor(d, Play(d, EMPTY_STORE, es[..k]), es[k], c)
  }

  ghost predicate OverdueAt(d: Dialect, es: seq<Event>, c: string, k: nat)
    requires k < |es|
  {
    Overdue(d, Lookup(Play(d, EMPTY_STORE, es[..k]), c), es[k].now)
  }

  /** `cs` and `ls` are a machine run that tells, call by call, what the calls `es` did to claim `c`. */
  ghost predicate Tells(d: Dialect, es: seq<Event>, c: string, cs: seq<Claim>, ls: seq<Label>) {
    && |ls| == |es|
    && Run(cs, ls)
    && (forall k :: 0 <= k <= |es| ==> cs[k] == ViewAt(d, es, c, k))
    && (forall k :: 0 <= k < |es| ==>
          (ls[k].expired ==> OverdueAt(d, es, c, k)) && Names(es[k].req, c, ls[k].act))
  }

  lemma LabelIsJustified(d: Dialect, s: Store, e: Event, c: string)
    ensures Names(e.req, c, LabelFor(d, s, e, c).act)
    ensures LabelFor(d, s, e, c).expired ==> Overdue(d, Lookup(s, c), e.now)
  {
  }

  lemma {:induction false} CallAt(d: Dialect, es: seq<Event>, c: string, k: nat)
    requires AllNamed(es) && k < |es|
    ensures ViewAt(d, es, c, k).WellFormed()
    ensures Step(ViewAt(d, es, c, k), LabelAt(d, es, c, k), ViewAt(d, es, c, k + 1))
    decreases k
  {
    if k == 0 {
      assert es[..0] == [];
    } else {
      CallAt(d, es, c, k - 1);
      StepKeepsWellFormed(ViewAt(d, es, c, k - 1), LabelAt(d, es, c, k - 1), ViewAt(d, es, c, k));
    }
    CallIsStep(d, Play(d, EMPTY_STORE, es[..k]), es[k], c);
    PlayOne(d, EMPTY_STORE, es, k);
  }

  ghost function ViewsOf(d: Dialect, es: seq<Event>, c: string): (cs: seq<Claim>) {
    seq(|es| + 1, i requires 0 <= i <= |es| => ViewAt(d, es, c, i))
  }

  ghost function LabelsOf(d: Dialect, es: seq<Event>, c: string): (ls: seq<Label>) {
    seq(|es|, i requires 0 <= i < |es| => LabelAt(d, es, c, i))
  }

  /** Refinement: on every claim, every run of a store is a run of the abstract claim machine. */
  lemma StoreRefinesMachine(d: Dialect, es: seq<Event>, c: string)
    requires AllNamed(es)
    ensures Tells(d, es, c, ViewsOf(d, es, c), LabelsOf(d, es, c))
  {
    var cs, ls := ViewsOf(d, es, c), LabelsOf(d, es, c);
    assert es[..0] == [];
    forall k | 0 <= k < |es|
      ensures Step(cs[k], ls[k], cs[k + 1])
      ensures (ls[k].expired ==> OverdueAt(d, es, c, k)) && Names(es[k].req, c, ls[k].act)
    {
      CallAt(d, es, c, k);
      LabelIsJustified(d, Play(d, EMPTY_STORE, es[..k]), es[k], c);
    }
  }

  /** Tokens never decrease, and a token is held by at most one generation, over every run. */
  lemma TokensAreEpochs(d: Dialect, es: seq<Event>, c: string, i: nat, j: nat)
    requires AllNamed(es) && i <= j <= |es|
    ensures ViewAt(d, es, c, i).token <= ViewAt(d, es, c, j).token
    ensures var a, b := ViewAt(d, es, c, i), ViewAt(d, es, c, j);
            a.Live() && b.Live() && a.token == b.token ==> a.owner == b.owner
  {
    StoreRefinesMachine(d, es, c);
    var cs, ls := ViewsOf(d, es, c), LabelsOf(d, es, c);
    assert cs[i] == ViewAt(d, es, c, i) && cs[j] == ViewAt(d, es, c, j);
    TokensNeverDecrease(cs, ls, i, j);
    if cs[i].Live() && cs[j].Live() && cs[i].token == cs[j].token {
      OneHolderPerToken(cs, ls, i, j);
    }
  }

  /** Call `p` prepared (g, s, t) and the claim stayed reserved for `s` until call `k` began. */
  ghost predicate PreparedByCall(
      d: Dialect, es: seq<Event>, c: string, p: nat, k: nat, g: string, s: string, t: FencingToken)
    requires k <= |es|
  {
    && p < k
    && PrepareNames(es[p].req, c, g, s, t)
    && forall q :: p < q <= k ==> ViewAt(d, es, c, q).ReservedFor(g, s, t)
  }

  ghost predicate CallEndsEpoch(d: Dialect, es: seq<Event>, c: string, k: nat, g: string, t: FencingToken)
    requires k < |es|
  {
    && ViewAt(d, es, c, k).HeldBy(g, t)
    && !ViewAt(d, es, c, k + 1).HeldBy(g, t)
    && (|| OverdueAt(d, es, c, k)
        || ReleaseNames(es[k].req, c, g, t)
        || (exists s: string, p: nat ::
              PreparedByCall(d, es, c, p, k, g, s, t) && CommitNames(es[k].req, c, g, s, t)))
  }

  /**
   A live epoch (g, t) ends only when the clock passes its lease's expiry, when a release names g
   and t, or when a commit names (g, s, t) after a prepare naming (g, s, t) that was not aborted.
   */
  lemma LiveEpochEndsOnlyBy(d: Dialect, es: seq<Event>, c: string, i: nat, j: nat, g: string, t: FencingToken)
    requires AllNamed(es) && i < j <= |es|
    requires ViewAt(d, es, c, i).HeldBy(g, t) && !ViewAt(d, es, c, j).HeldBy(g, t)
    ensures exists k :: i <= k < j && CallEndsEpoch(d, es, c, k, g, t)
  {
    StoreRefinesMachine(d, es, c);
    var cs, ls := ViewsOf(d, es, c), LabelsOf(d, es, c);
    assert cs[i] == ViewAt(d, es, c, i) && cs[j] == ViewAt(d, es, c, j);
    EpochEndsOnlyBy(cs, ls, i, j, g, t);
    var k :| i <= k < j && EndsEpoch(cs, ls, k, g, t);
    EpochEndIsCall(d, es, c, cs, ls, k, g, t);
  }

  lemma EpochEndIsCall(
      d: Dialect, es: seq<Event>, c: string, cs: seq<Claim>, ls: seq<Label>, k: nat, g: string, t: FencingToken)
    requires k < |es| && Tells(d, es, c, cs, ls) && EndsEpoch(cs, ls, k, g, t)
    ensures CallEndsEpoch(d, es, c, k, g, t)
  {
    assert cs[k] == ViewAt(d, es, c, k) && cs[k + 1] == ViewAt(d, es, c, k + 1);
    assert Names(es[k].req, c, ls[k].act);
    if exists s: string, p: nat :: PreparedAt(cs, ls, p, k, g, s, t) && ls[k].act == Some(CommitTo(g, s, t)) {
      var s: string, p: nat :| PreparedAt(cs, ls, p, k, g, s, t) && ls[k].act == Some(CommitTo(g, s, t));
      assert Names(es[p].req, c, ls[p].act);
      forall q | p < q <= k ensures ViewAt(d, es, c, q).ReservedFor(g, s, t) {
        assert cs[q] == ViewAt(d, es, c, q);
      }
      assert PreparedByCall(d, es, c, p, k, g, s, t);
    }
  }

  // ---------- idempotent retries ----------

  lemma {:induction false} OperationsAreKept(d: Dialect, s: Store, es: seq<Event>, id: string)
    requires id in s.ops
    ensures id in Play(d, s, es).ops && Play(d, s, es).ops[id] == s.ops[id]
  {
    if es != [] {
      OperationsAreKept(d, s, es[..|es| - 1], id);
    }
  }

  function WithoutRetries(es: seq<Event>, req: Request): seq<Event> {
    if es == [] then []
    else
      var last := es[|es| - 1];
      WithoutRetries(es[..|es| - 1], req) + (if last.req == req then [] else [last])
  }

  /** A successful call leaves its reply remembered. */
  lemma SuccessIsRemembered(d: Dialect, s: Store, req: Request, now: int)
    requires req.OperationID() != "" && Apply(d, s, req, now).1.err == Ok
    ensures var (s', reply) := Apply(d, s, req, now);
            req.op in s'.ops && Report(req, s'.ops[req.op]) == reply
  {
  }

  /**
   Once a call with an operation id has succeeded, its retries, any number of them and at any later
   time, leave the whole store as if they had not been made, and each returns the same reply.
   */
  lemma {:induction false} RetriesChangeNothing(d: Dialect, s: Store, req: Request, now: int, es: seq<Event>)
    requires req.OperationID() != "" && Apply(d, s, req, now).1.err == Ok
    ensures var (s', reply) := Apply(d, s, req, now);
            && Play(d, s', es) == Play(d, s', WithoutRetries(es, req))
            && (forall k :: 0 <= k < |es| && es[k].req == req ==>
                  Apply(d, Play(d, s', es[..k]), req, es[k].now) == (Play(d, s', es[..k]), reply))
  {
    var (s', reply) := Apply(d, s, req, now);
    SuccessIsRemembered(d, s, req, now);
    forall k | 0 <= k < |es| && es[k].req == req
      ensures Apply(d, Play(d, s', es[..k]), req, es[k].now) == (Play(d, s', es[..k]), reply)
    {
      OperationsAreKept(d, s', es[..k], req.op);
    }
    if es != [] {
      var init := es[..|es| - 1];
      RetriesChangeNothing(d, s, req, now, init);
      var kept := WithoutRetries(es, req);
      if es[|es| - 1].req != req {
        assert kept[..|kept| - 1] == WithoutRetries(init, req);
      } else {
        assert kept == WithoutRetries(init, req);
      }
    }
  }

  /** A commit that moves the token moves it from the token it expects to the next one. */
  lemma CommitMoves(d: Dialect, es: seq<Event>, c: string, cs: seq<Claim>, ls: seq<Label>, k: nat)
    requires k < |es| && Tells(d, es, c, cs, ls)
    requires es[k].req.Commit? && es[k].req.claim == c
    ensures var before, after := ViewAt(d, es, c, k).token, ViewAt(d, es, c, k + 1).token;
            after == before || (before == es[k].req.token && after == before + 1)
  {
    assert cs[k] == ViewAt(d, es, c, k) && cs[k + 1] == ViewAt(d, es, c, k + 1);
    assert Step(cs[k], ls[k], cs[k + 1]);
    assert Names(es[k].req, c, ls[k].act);
  }

  /** Commits for one expected token advance the token at most once, whatever operation ids they carry. */
  lemma CommitAdvancesOnce(d: Dialect, es: seq<Event>, c: string, t: FencingToken, i: nat, j: nat)
    requires AllNamed(es) && i < j < |es|
    requires es[i].req.Commit? && es[i].req.claim == c && es[i].req.token == t
    requires es[j].req.Commit? && es[j].req.claim == c && es[j].req.token == t
    requires ViewAt(d, es, c, i + 1).token != ViewAt(d, es, c, i).token
    ensures ViewAt(d, es, c, i).token == t && ViewAt(d, es, c, i + 1).token == t + 1
    ensures ViewAt(d, es, c, j + 1).token == ViewAt(d, es, c, j).token
  {
    StoreRefinesMachine(d, es, c);
    TokensAreEpochs(d, es, c, i + 1, j);
    var cs, ls := ViewsOf(d, es, c), LabelsOf(d, es, c);
    CommitMoves(d, es, c, cs, ls, i);
    CommitMoves(d, es, c, cs, ls, j);
  }
}
