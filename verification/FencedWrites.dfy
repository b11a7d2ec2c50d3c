/**
 A resource that refuses stale fencing tokens, and the end-to-end guarantee it gives together with
 an ownership backend: no write of a predecessor lands after a write of its successor.
 */
module FencedWrites {
  import opened ClaimRecords
  import opened ClaimMachine
  import opened ClaimRules
  import opened ClaimStore

  /** What a fenced resource holds: the newest token it accepted, and the value written under it. */
  datatype Fence = Fence(token: FencingToken, value: string)

  const UNWRITTEN := Fence(0, "")

  predicate Accepts(f: Fence, token: FencingToken) {
    token != 0 && f.token <= token
  }

  class Resource {
    var token: FencingToken
    var value: string

    constructor ()
      ensures Contents() == UNWRITTEN
    {
      token, value := 0, "";
    }

    ghost function Contents(): Fence
      reads this
    {
      Fence(token, value)
    }

    /** Returns whether the write was accepted; a refused write changes nothing. */
    method Write(tok: FencingToken, val: string) returns (accepted: bool)
      modifies this
      ensures accepted <==> Accepts(old(Contents()), tok)
      ensures Contents() == if accepted then Fence(tok, val) else old(Contents())
    {
      if tok == 0 || tok < token {
        return false;
      }
      token := tok;
      value := val;
      return true;
    }
  }

  // ---------- a backend, its clients, and one resource guarded by claim c ----------

  datatype Epoch = Epoch(gen: string, token: FencingToken)

  datatype FencedWrite = FencedWrite(epoch: Epoch, value: string)

  /**
   `granted` are the epochs some backend reply showed to their owner; `log` are the accepted writes.
   `held` is a history variable: every epoch of the claim so far.
   */
  datatype World = World(store: Store, fence: Fence, granted: set<Epoch>, held: set<Epoch>, log: seq<FencedWrite>)

  const FIRST_WORLD := World(ClaimStore.EMPTY_STORE, UNWRITTEN, {}, {}, [])

  datatype Move =
    | Call(req: Request, now: int)
    | Attempt(write: FencedWrite)

  function EpochOf(c: string, rec: Option<ClaimRecord>): set<Epoch> {
    if rec.Some? && rec.value.name == c && rec.value.Live() then {Epoch(rec.value.owner, rec.value.token)} else {}
  }

  function Advance(d: Dialect, c: string, w: World, m: Move): World {
    match m
    case Call(req, now) =>
      var (store, reply) := Apply(d, w.store, req, now);
      World(store, w.fence, w.granted + EpochOf(c, reply.rec), w.held + EpochOf(c, Some(Lookup(store, c))), w.log)
    case Attempt(write) =>
      if Accepts(w.fence, write.epoch.token)
      then w.(fence := Fence(write.epoch.token, write.value), log := w.log + [write])
      else w
  }

  /** Requests name their generations, and a writer uses a token it was shown as its own. */
  predicate Allowed(w: World, m: Move) {
    match m
    case Call(req, _) => req.Named()
    case Attempt(write) => write.epoch in w.granted
  }

  function After(d: Dialect, c: string, ms: seq<Move>): World {
    if ms == [] then FIRST_WORLD else Advance(d, c, After(d, c, ms[..|ms| - 1]), ms[|ms| - 1])
  }

  ghost predicate AllowedRun(d: Dialect, c: string, ms: seq<Move>) {
    forall k :: 0 <= k < |ms| ==> Allowed(After(d, c, ms[..k]), ms[k])
  }

  /** No two generations ever held the same token, and no epoch is newer than the claim. */
  predicate EpochsDistinct(held: set<Epoch>, c: Claim) {
    && (forall e <- held :: e.token <= c.token)
    && (forall e, f | e in held && f in held && e.token == f.token :: e == f)
    && (c.Live() ==> Epoch(c.owner, c.token) in held)
  }

  ghost predicate RepliesAreEpochs(c: string, w: World) {
    && NamesMatch(w.store)
    && (forall id | id in w.store.ops :: EpochOf(c, w.store.ops[id].rec) <= w.held)
  }

  /** Accepted writes carry epochs the claim has had, with non-decreasing tokens up to that of the fence. */
  ghost predicate WritesOrdered(fence: Fence, held: set<Epoch>, log: seq<FencedWrite>) {
    && (forall i, j :: 0 <= i <= j < |log| ==> log[i].epoch.token <= log[j].epoch.token)
    && (forall i :: 0 <= i < |log| ==> log[i].epoch in held && log[i].epoch.token <= fence.token)
    && (fence.token == 0 || exists e <- held :: e.token == fence.token)
  }

  ghost predicate Inv(c: string, w: World) {
    && View(w.store, c).WellFormed()
    && EpochsDistinct(w.held, View(w.store, c))
    && RepliesAreEpochs(c, w)
    && w.granted <= w.held
    && WritesOrdered(w.fence, w.held, w.log)
  }

  /** Every record a call returns or remembers shows an epoch that was held. */
  lemma CallKeepsReplies(d: Dialect, c: string, w: World, w': World, reply: Reply, req: Request, now: int)
    requires RepliesAreEpochs(c, w)
    requires Apply(d, w.store, req, now) == (w'.store, reply)
    requires w'.held == w.held + EpochOf(c, Some(Lookup(w'.store, c)))
    ensures RepliesAreEpochs(c, w') && EpochOf(c, reply.rec) <= w'.held
  {
    RepliesShowStoredRecords(d, w.store, req, now);
    assert Lookup(w'.store, req.claim).name == req.claim;
  }

  lemma StepKeepsEpochsDistinct(held: set<Epoch>, a: Claim, l: Label, b: Claim)
    requires EpochsDistinct(held, a) && a.WellFormed() && Step(a, l, b)
    ensures b.WellFormed()
    ensures EpochsDistinct(held + (if b.Live() then {Epoch(b.owner, b.token)} else {}), b)
  {
    StepKeepsWellFormed(a, l, b);
  }

  lemma CallKeepsInv(d: Dialect, c: string, w: World, req: Request, now: int)
    requires Inv(c, w) && req.Named()
    ensures Inv(c, Advance(d, c, w, Call(req, now)))
  {
    var e := ClaimStore.Event(req, now);
    var w' := Advance(d, c, w, Call(req, now));
    var (store, reply) := Apply(d, w.store, req, now);
    CallKeepsReplies(d, c, w, w', reply, req, now);
    CallIsStep(d, w.store, e, c);
    StepKeepsEpochsDistinct(w.held, View(w.store, c), LabelFor(d, w.store, e, c), View(w'.store, c));
    var rec := Lookup(w'.store, c);
    assert rec.name == c;
    assert EpochOf(c, Some(rec)) == if View(w'.store, c).Live() then {Epoch(rec.owner, rec.token)} else {};
  }

  lemma AcceptKeepsOrder(fence: Fence, held: set<Epoch>, log: seq<FencedWrite>, write: FencedWrite)
    requires WritesOrdered(fence, held, log) && write.epoch in held && Accepts(fence, write.epoch.token)
    ensures WritesOrdered(Fence(write.epoch.token, write.value), held, log + [write])
  {
  }

  lemma AttemptKeepsInv(d: Dialect, c: string, w: World, write: FencedWrite)
    requires Inv(c, w) && write.epoch in w.granted
    ensures Inv(c, Advance(d, c, w, Attempt(write)))
  {
    if Accepts(w.fence, write.epoch.token) {
      AcceptKeepsOrder(w.fence, w.held, w.log, write);
    }
  }

  lemma {:induction false} RunKeepsInv(d: Dialect, c: string, ms: seq<Move>)
    requires AllowedRun(d, c, ms)
    ensures Inv(c, After(d, c, ms))
  {
    if ms != [] {
      var k := |ms| - 1;
      var init := ms[..k];
      assert forall i :: 0 <= i < k ==> init[..i] == ms[..i];
      RunKeepsInv(d, c, init);
      match ms[k]
      case Call(req, now) => CallKeepsInv(d, c, After(d, c, init), req, now);
      case Attempt(write) => AttemptKeepsInv(d, c, After(d, c, init), write);
    }
  }

  /**
   In every run of backend calls, clock readings and writes, accepted writes carry non-decreasing
   tokens and all writes under one token come from one generation.
   */
  lemma NoStaleWriteLands(d: Dialect, c: string, ms: seq<Move>, i: nat, j: nat)
    requires AllowedRun(d, c, ms)
    requires i <= j < |After(d, c, ms).log|
    ensures var log := After(d, c, ms).log;
            && log[i].epoch.token <= log[j].epoch.token
            && (log[i].epoch.token == log[j].epoch.token ==> log[i].epoch.gen == log[j].epoch.gen)
  {
    RunKeepsInv(d, c, ms);
  }

  /** The generation that holds the claim is never fenced out by its own resource. */
  lemma CurrentHolderIsAccepted(d: Dialect, c: string, ms: seq<Move>, g: string, t: FencingToken)
    requires AllowedRun(d, c, ms)
    requires View(After(d, c, ms).store, c).HeldBy(g, t)
    ensures Accepts(After(d, c, ms).fence, t)
  {
    RunKeepsInv(d, c, ms);
  }
}
