/**
 The Kubernetes backend: any number of clients, each reading a lease object, computing a new one and
 writing it back under a resource-version check. Steps of different clients interleave freely.
 */
module KubernetesBackend {
  import opened ClaimRecords
  import opened ClaimMachine
  import opened ClaimRules

  const SECOND: int := 1_000_000_000

  /** Annotations of a lease; an absent phase falls back on the holder. */
  datatype Annotations = Annotations(
    token: FencingToken, phase: Option<Phase>, previousOwner: string, successor: string,
    transfer: TransferStatus, drain: DrainStatus, reason: Reason, version: nat, acquiredAt: Time)

  /** A lease object. Resource version 0 stands for the empty string. */
  datatype LeaseObject = LeaseObject(
    holder: string, durationSecs: int, acquireTime: Time, renewTime: Time,
    resourceVersion: nat, ann: Annotations)

  const EMPTY_LEASE := LeaseObject("", 0, Zero, Zero, 0,
                        Annotations(0, Some(Unowned), "", "", NoTransfer, NotDrained, NoReason, 0, Zero))

  function RecordFromLease(claim: string, l: LeaseObject): ClaimRecord {
    var phase := match l.ann.phase
                 case Some(p) => p
                 case None => if l.holder == "" then Unowned else Owned;
    var expires := if l.renewTime.Zero? then Zero else At(l.renewTime.tick + l.durationSecs * SECOND);
    ClaimRecord(claim, l.holder, l.ann.token, phase, l.ann.acquiredAt, expires, l.ann.previousOwner,
                l.ann.successor, l.ann.drain, l.ann.transfer, l.renewTime, l.ann.reason, l.ann.version)
  }

  /** Integer division truncating toward zero, and conversion to a signed 32-bit integer. */
  function Quotient(a: int, b: int): int
    requires b > 0
  {
    if a >= 0 then a / b else -((-a) / b)
  }

  function Int32(x: int): int {
    (x + 0x8000_0000) % 0x1_0000_0000 - 0x8000_0000
  }

  function LeaseSeconds(ttl: int): int {
    var secs := Int32(Quotient(ttl, SECOND));
    if secs <= 0 then 15 else secs
  }

  function ApplyRecord(l: LeaseObject, rec: ClaimRecord, ttl: int, stamp: int): LeaseObject {
    var acquired := if rec.acquiredAt.Zero? then At(stamp) else rec.acquiredAt;
    LeaseObject(rec.owner, LeaseSeconds(ttl), acquired, At(stamp), l.resourceVersion,
                Annotations(rec.token, Some(rec.phase), rec.previousOwner, rec.pendingSuccessor,
                            rec.transferStatus, rec.drainStatus, rec.reason, rec.version, acquired))
  }

  /** Writing a record to a lease and reading it back changes nothing but its times. */
  lemma LeaseRoundTrip(claim: string, l: LeaseObject, rec: ClaimRecord, ttl: int, stamp: int)
    requires rec.name == claim
    ensures var back := RecordFromLease(claim, ApplyRecord(l, rec, ttl, stamp));
            && back == rec.(
                 acquiredAt := back.acquiredAt, expiresAt := back.expiresAt, lastHeartbeat := back.lastHeartbeat)
            && back.lastHeartbeat == At(stamp)
            && (rec.acquiredAt != Zero ==> back.acquiredAt == rec.acquiredAt)
            && back.expiresAt.At? && stamp < back.expiresAt.tick
            && (SECOND <= ttl <= 0x7FFF_FFFF * SECOND ==> stamp + ttl - SECOND < back.expiresAt.tick <= stamp + ttl)
  {
    if SECOND <= ttl <= 0x7FFF_FFFF * SECOND {
      var q := ttl / SECOND;
      assert 1 <= q <= 0x7FFF_FFFF;
      assert LeaseSeconds(ttl) == q;
      assert q * SECOND <= ttl < q * SECOND + SECOND;
    }
  }

  // ---------- the lease API ----------

  datatype Cluster = Cluster(leases: map<string, LeaseObject>, rv: nat)

  const EMPTY_CLUSTER := Cluster(map[], 0)

  function Create(k: Cluster, name: string, l: LeaseObject): (Cluster, Option<LeaseObject>) {
    if name in k.leases then (k, None)
    else
      var stored := l.(resourceVersion := k.rv + 1);
      (Cluster(k.leases[name := stored], k.rv + 1), Some(stored))
  }

  /** A version that is set must still be the current one. */
  function Update(k: Cluster, name: string, l: LeaseObject): (Cluster, Option<LeaseObject>) {
    if name !in k.leases then (k, None)
    else if l.resourceVersion != 0 && l.resourceVersion != k.leases[name].resourceVersion then (k, None)
    else
      var stored := l.(resourceVersion := k.rv + 1);
      (Cluster(k.leases[name := stored], k.rv + 1), Some(stored))
  }

  class MemoryLeaseClient {
    var leases: map<string, LeaseObject>
    var rv: nat

    constructor ()
      ensures State() == EMPTY_CLUSTER
    {
      leases, rv := map[], 0;
    }

    ghost function State(): Cluster
      reads this
    {
      Cluster(leases, rv)
    }

    method Get(name: string) returns (l: Option<LeaseObject>)
      ensures l == if name in leases then Some(leases[name]) else None
    {
      if name !in leases {
        return None;
      }
      return Some(leases[name]);
    }

    method CreateLease(name: string, l: LeaseObject) returns (stored: Option<LeaseObject>)
      modifies this
      ensures (State(), stored) == Create(old(State()), name, l)
    {
      if name in leases {
        return None;
      }
      rv := rv + 1;
      var cp := l.(resourceVersion := rv);
      leases := leases[name := cp];
      return Some(cp);
    }

    method UpdateLease(name: string, l: LeaseObject) returns (stored: Option<LeaseObject>)
      modifies this
      ensures (State(), stored) == Update(old(State()), name, l)
    {
      if name !in leases {
        return None;
      }
      if l.resourceVersion != 0 && l.resourceVersion != leases[name].resourceVersion {
        return None;
      }
      rv := rv + 1;
      var cp := l.(resourceVersion := rv);
      leases := leases[name := cp];
      return Some(cp);
    }
  }

  // ---------- clients ----------

  /** Where a client is between its calls to the lease API. */
  datatype Client =
    | Idle
    | Creating(req: Request)                                // found no lease, about to create one
    | Rereading(req: Request)                               // lost the creation race, about to read again
    | Expiring(req: Request, lease: LeaseObject, now: int)  // found the lease expired at `now`, about to write that
    | Updating(req: Request, lease: LeaseObject)            // about to write the request's effect

  function WriteTTL(req: Request): int {
    match req
    case Acquire(_, _, ttl, _) => ttl
    case Renew(_, _, _, ttl, _) => ttl
    case Prepare(_, _, _, _, ttl, _) => ttl
    case Commit(_, _, _, _, ttl, _) => ttl
    case _ => 15 * SECOND
  }

  /** Decide on an up-to-date lease: either answer at once, or go on to write. */
  function Resolve(req: Request, l: LeaseObject, stamp: int): Client {
    if req.Get? then Idle
    else
      match Decide(Kubernetes, req, RecordFromLease(req.claim, l), stamp)
      case Write(rec) => Updating(req, ApplyRecord(l, rec, WriteTTL(req), stamp))
      case _ => Idle
  }

  /** Look at a lease just read: an expired one is first written back as unowned. */
  function Examine(req: Request, l: LeaseObject, now: int, stamp: int): Client {
    var rec := RecordFromLease(req.claim, l);
    if Overdue(Kubernetes, rec, now)
    then Expiring(req, ApplyRecord(l, Lapsed(Kubernetes, rec), 15 * SECOND, stamp), now)
    else Resolve(req, l, stamp)
  }

  datatype System = System(cluster: Cluster, clients: map<string, Client>)

  const BOOTED := System(EMPTY_CLUSTER, map[])

  function StateOf(s: System, id: string): Client {
    if id in s.clients then s.clients[id] else Idle
  }

  /** One scheduling step: client `id` performs its next lease call, or dies and starts over. */
  datatype Turn =
    | Go(id: string, req: Request, now: int, stamp: int)
    | Crash(id: string)

  function Take(s: System, t: Turn): System {
    match t
    case Crash(id) => s.(clients := s.clients[id := Idle])
    case Go(id, next, now, stamp) =>
      match StateOf(s, id)
      case Idle =>
        Moved(s.cluster, s, id,
              if next.claim in s.cluster.leases
              then Examine(next, s.cluster.leases[next.claim], now, stamp)
              else Creating(next))
      case Creating(req) =>
        var (k, created) := Create(s.cluster, req.claim, EMPTY_LEASE);
        Moved(k, s, id, if created.Some? then Examine(req, created.value, now, stamp) else Rereading(req))
      case Rereading(req) =>
        Moved(s.cluster, s, id,
              if req.claim in s.cluster.leases
              then Examine(req, s.cluster.leases[req.claim], now, stamp)
              else Idle)
      case Expiring(req, l, _) =>
        var (k, stored) := Update(s.cluster, req.claim, l);
        Moved(k, s, id, if stored.Some? then Resolve(req, stored.value, stamp) else Idle)
      case Updating(req, l) =>
        var (k, _) := Update(s.cluster, req.claim, l);
        Moved(k, s, id, Idle)
  }

  function Moved(k: Cluster, s: System, id: string, c: Client): System {
    System(k, s.clients[id := c])
  }

  // ---------- refinement ----------

  function LeaseView(l: LeaseObject): Claim {
    Abs(RecordFromLease("", l))
  }

  function View(k: Cluster, c: string): Claim {
    if c in k.leases then LeaseView(k.leases[c]) else INITIAL
  }

  /** The version `l` carries is current, so an update with it would go through. */
  predicate Current(k: Cluster, name: string, l: LeaseObject) {
    name in k.leases && k.leases[name].resourceVersion == l.resourceVersion
  }

  /**
   What a pending write would do, were its version still current, is a legal step; an expiry would be justified
   by the client's clock reading.
   */
  predicate Sound(k: Cluster, c: Client) {
    match c
    case Idle => true
    case Creating(req) => req.Named()
    case Rereading(req) => req.Named()
    case Expiring(req, l, now) =>
      && req.Named() && 0 < l.resourceVersion <= k.rv
      && (Current(k, req.claim, l) ==>
            && Overdue(Kubernetes, RecordFromLease(req.claim, k.leases[req.claim]), now)
            && Step(View(k, req.claim), Label(true, None), LeaseView(l)))
    case Updating(req, l) =>
      && req.Named() && 0 < l.resourceVersion <= k.rv
      && (Current(k, req.claim, l) ==>
            Step(View(k, req.claim), Label(false, ActOf(req, View(k, req.claim), LeaseView(l))), LeaseView(l)))
  }

  predicate ClusterInv(k: Cluster) {
    forall c | c in k.leases :: 0 < k.leases[c].resourceVersion <= k.rv && LeaseView(k.leases[c]).WellFormed()
  }

  predicate Inv(s: System) {
    && ClusterInv(s.cluster)
    && forall id | id in s.clients :: Sound(s.cluster, s.clients[id])
  }

  lemma ResolveIsSound(k: Cluster, req: Request, stamp: int)
    requires ClusterInv(k) && req.Named() && req.claim in k.leases
    ensures Sound(k, Resolve(req, k.leases[req.claim], stamp))
  {
    if !req.Get? {
      DecisionIsStep(Kubernetes, req, RecordFromLease(req.claim, k.leases[req.claim]), stamp);
    }
  }

  lemma ExamineIsSound(k: Cluster, req: Request, now: int, stamp: int)
    requires ClusterInv(k) && req.Named() && req.claim in k.leases
    ensures Sound(k, Examine(req, k.leases[req.claim], now, stamp))
  {
    ResolveIsSound(k, req, stamp);
  }

  /** A write takes a new version, so every other pending write on that lease is now stale. */
  lemma WriteKeepsOthersSound(k: Cluster, name: string, stored: LeaseObject, c: Client)
    requires Sound(k, c) && stored.resourceVersion == k.rv + 1
    ensures Sound(Cluster(k.leases[name := stored], k.rv + 1), c)
  {
  }

  function Written(k: Cluster, name: string, l: LeaseObject): Cluster {
    Cluster(k.leases[name := l.(resourceVersion := k.rv + 1)], k.rv + 1)
  }

  lemma WriteKeepsClusterInv(k: Cluster, name: string, l: LeaseObject)
    requires ClusterInv(k) && LeaseView(l).WellFormed()
    ensures ClusterInv(Written(k, name, l))
  {
  }

  /** What a turn does to claim `c`: at most the one write its client had pending. */
  function LabelFor(s: System, t: Turn, c: string): Label {
    if t.Crash? then Label(false, None)
    else
      match StateOf(s, t.id)
      case Expiring(req, l, _) => Label(req.claim == c && Current(s.cluster, c, l), None)
      case Updating(req, l) =>
        if req.claim == c && Current(s.cluster, c, l)
        then Label(false, ActOf(req, View(s.cluster, c), LeaseView(l)))
        else Label(false, None)
      case _ => Label(false, None)
  }

  ghost predicate Fresh(t: Turn) {
    t.Go? ==> t.req.Named()
  }

  /** Every create, version-checked update, read, failure or crash is one step of the claim machine. */
  lemma TurnIsStep(s: System, t: Turn, c: string)
    requires Inv(s)
    ensures Step(View(s.cluster, c), LabelFor(s, t, c), View(Take(s, t).cluster, c))
  {
    if t.Go? && t.id in s.clients {
      assert Sound(s.cluster, s.clients[t.id]);
    }
  }

  lemma TurnKeepsInv(s: System, t: Turn)
    requires Inv(s) && Fresh(t)
    ensures Inv(Take(s, t))
  {
    if t.Go? {
      var me := StateOf(s, t.id);
      assert Sound(s.cluster, me);
      var s' := Take(s, t);
      var k := s.cluster;
      match me
      case Idle =>
        if t.req.claim in k.leases {
          ExamineIsSound(k, t.req, t.now, t.stamp);
        }
      case Rereading(req) =>
        if req.claim in k.leases {
          ExamineIsSound(k, req, t.now, t.stamp);
        }
      case Creating(req) =>
        if req.claim !in k.leases {
          WriteKeepsClusterInv(k, req.claim, EMPTY_LEASE);
          OthersStaySound(s, t.id, req.claim, EMPTY_LEASE);
          ExamineIsSound(s'.cluster, req, t.now, t.stamp);
        }
      case Expiring(req, l, _) =>
        if Current(k, req.claim, l) {
          StepKeepsWellFormed(View(k, req.claim), Label(true, None), LeaseView(l));
          WriteKeepsClusterInv(k, req.claim, l);
          OthersStaySound(s, t.id, req.claim, l);
          ResolveIsSound(s'.cluster, req, t.stamp);
        }
      case Updating(req, l) =>
        if Current(k, req.claim, l) {
          TurnIsStep(s, t, req.claim);
          StepKeepsWellFormed(View(k, req.claim), LabelFor(s, t, req.claim), LeaseView(l));
          WriteKeepsClusterInv(k, req.claim, l);
          OthersStaySound(s, t.id, req.claim, l);
        }
    }
  }

  lemma OthersStaySound(s: System, id: string, name: string, l: LeaseObject)
    requires Inv(s)
    ensures forall other | other in s.clients && other != id :: Sound(Written(s.cluster, name, l), s.clients[other])
  {
    forall other | other in s.clients && other != id ensures Sound(Written(s.cluster, name, l), s.clients[other]) {
      WriteKeepsOthersSound(s.cluster, name, l.(resourceVersion := s.cluster.rv + 1), s.clients[other]);
    }
  }

  // ---------- whole runs ----------

  function Play(ts: seq<Turn>): System {
    if ts == [] then BOOTED else Take(Play(ts[..|ts| - 1]), ts[|ts| - 1])
  }

  ghost predicate AllFresh(ts: seq<Turn>) {
    forall k :: 0 <= k < |ts| ==> Fresh(ts[k])
  }

  lemma {:induction false} PlayKeepsInv(ts: seq<Turn>)
    requires AllFresh(ts)
    ensures Inv(Play(ts))
  {
    if ts != [] {
      PlayKeepsInv(ts[..|ts| - 1]);
      TurnKeepsInv(Play(ts[..|ts| - 1]), ts[|ts| - 1]);
    }
  }

  /** Claim `c` after the first `i` turns. */
  ghost function ViewAt(ts: seq<Turn>, c: string, i: nat): Claim
    requires i <= |ts|
  {
    View(Play(ts[..i]).cluster, c)
  }

  ghost function LabelAt(ts: seq<Turn>, c: string, k: nat): Label
    requires k < |ts|
  {
    LabelFor(Play(ts[..k]), ts[k], c)
  }

  predicate Issues(t: Turn, id: string, req: Request) {
    t.Go? && t.id == id && t.req == req
  }

  predicate ReadsClock(t: Turn, id: string, now: int) {
    t.Go? && t.id == id && t.now == now
  }

  /** A client only works on requests it was given, and goes by clock readings it took, in earlier turns. */
  lemma {:induction false} PendingWasIssued(ts: seq<Turn>, id: string)
    ensures var c := StateOf(Play(ts), id);
            && (!c.Idle? ==> exists p: nat :: p < |ts| && Issues(ts[p], id, c.req))
            && (c.Expiring? ==> exists p: nat :: p < |ts| && ReadsClock(ts[p], id, c.now))
  {
    if ts != [] {
      var init, last := ts[..|ts| - 1], ts[|ts| - 1];
      PendingWasIssued(init, id);
      assert forall p: nat | p < |init| :: init[p] == ts[p];
      assert ts[|ts| - 1] == last;
      var c := StateOf(Play(init), id);
      if !c.Idle? {
        var p: nat :| p < |init| && Issues(init[p], id, c.req);
        assert Issues(ts[p], id, c.req);
      }
      if c.Expiring? {
        var p: nat :| p < |init| && ReadsClock(init[p], id, c.now);
        assert ReadsClock(ts[p], id, c.now);
      }
      assert last.Go? && last.id == id ==> Issues(last, id, last.req) && ReadsClock(last, id, last.now);
    }
  }

  /** By the clock turn `p` read, the lease that claim `c` has when turn `k` comes has run out. */
  ghost predicate FoundOverdue(ts: seq<Turn>, c: string, p: nat, k: nat)
    requires k < |ts|
  {
    var leases := Play(ts[..k]).cluster.leases;
    && p < k && ts[p].Go? && ts[k].Go? && ts[p].id == ts[k].id
    && c in leases && Overdue(Kubernetes, RecordFromLease(c, leases[c]), ts[p].now)
  }

  ghost predicate OverdueAt(ts: seq<Turn>, c: string, k: nat)
    requires k < |ts|
  {
    exists p: nat :: FoundOverdue(ts, c, p, k)
  }

  predicate Requests(t: Turn, id: string, c: string, act: Action) {
    t.Go? && t.id == id && Names(t.req, c, Some(act))
  }

  /** Turn `k` is a client's on whose behalf an earlier turn asked for `act`, naming all that it names. */
  predicate Asked(ts: seq<Turn>, c: string, k: nat, act: Action)
    requires k < |ts|
  {
    ts[k].Go? && exists p: nat :: p < k && Requests(ts[p], ts[k].id, c, act)
  }

  /** `cs` and `ls` are a machine run that tells, turn by turn, what the clients did to claim `c`. */
  ghost predicate Tells(ts: seq<Turn>, c: string, cs: seq<Claim>, ls: seq<Label>) {
    && |ls| == |ts|
    && Run(cs, ls)
    && (forall k :: 0 <= k <= |ts| ==> cs[k] == ViewAt(ts, c, k))
    && (forall k :: 0 <= k < |ts| ==>
          (ls[k].expired ==> OverdueAt(ts, c, k)) && (ls[k].act.Some? ==> Asked(ts, c, k, ls[k].act.value)))
  }

  lemma LabelIsJustified(ts: seq<Turn>, c: string, k: nat)
    requires AllFresh(ts) && k < |ts|
    ensures LabelAt(ts, c, k).expired ==> OverdueAt(ts, c, k)
    ensures LabelAt(ts, c, k).act.Some? ==> Asked(ts, c, k, LabelAt(ts, c, k).act.value)
  {
    var s, t, l := Play(ts[..k]), ts[k], LabelAt(ts, c, k);
    PlayKeepsInv(ts[..k]);
    if t.Go? && t.id in s.clients {
      assert Sound(s.cluster, s.clients[t.id]);
      PendingWasIssued(ts[..k], t.id);
      var me := StateOf(s, t.id);
      if l.expired {
        var p: nat :| p < k && ReadsClock(ts[..k][p], t.id, me.now);
        assert FoundOverdue(ts, c, p, k);
      }
      if l.act.Some? {
        var p: nat :| p < k && Issues(ts[..k][p], t.id, me.req);
        assert Requests(ts[p], t.id, c, l.act.value);
      }
    }
  }

  ghost function ViewsOf(ts: seq<Turn>, c: string): seq<Claim> {
    seq(|ts| + 1, i requires 0 <= i <= |ts| => ViewAt(ts, c, i))
  }

  ghost function LabelsOf(ts: seq<Turn>, c: string): seq<Label> {
    seq(|ts|, i requires 0 <= i < |ts| => LabelAt(ts, c, i))
  }

  /**
   Refinement: under every interleaving each claim goes through a run of the abstract machine. Whatever expires
   was overdue by the clock of the client that wrote it, and every action was asked for.
   */
  lemma ClusterRefinesMachine(ts: seq<Turn>, c: string)
    requires AllFresh(ts)
    ensures Tells(ts, c, ViewsOf(ts, c), LabelsOf(ts, c))
  {
    var cs, ls := ViewsOf(ts, c), LabelsOf(ts, c);
    assert ts[..0] == [];
    forall i | 0 <= i < |ls|
      ensures Step(cs[i], ls[i], cs[i + 1])
      ensures (ls[i].expired ==> OverdueAt(ts, c, i)) && (ls[i].act.Some? ==> Asked(ts, c, i, ls[i].act.value))
    {
      PlayKeepsInv(ts[..i]);
      TurnIsStep(Play(ts[..i]), ts[i], c);
      assert ts[..i + 1][..i] == ts[..i];
      LabelIsJustified(ts, c, i);
    }
  }

  /** Tokens never decrease, and a token is held by at most one generation, under every interleaving. */
  lemma ClusterTokensAreEpochs(ts: seq<Turn>, c: string, i: nat, j: nat)
    requires AllFresh(ts) && i <= j <= |ts|
    ensures var a, b := ViewAt(ts, c, i), ViewAt(ts, c, j);
            a.token <= b.token && (a.Live() && b.Live() && a.token == b.token ==> a.owner == b.owner)
  {
    ClusterRefinesMachine(ts, c);
    var cs, ls := ViewsOf(ts, c), LabelsOf(ts, c);
    assert cs[i] == ViewAt(ts, c, i) && cs[j] == ViewAt(ts, c, j);
    TokensNeverDecrease(cs, ls, i, j);
    if cs[i].Live() && cs[j].Live() && cs[i].token == cs[j].token {
      OneHolderPerToken(cs, ls, i, j);
    }
  }

  /** Turn `p` wrote a prepare naming (g, s, t), and the claim stayed reserved for `s` until turn `k`. */
  ghost predicate PreparedByTurn(ts: seq<Turn>, c: string, p: nat, k: nat, g: string, s: string, t: FencingToken)
    requires k < |ts|
  {
    && p < k && Asked(ts, c, p, PrepareTo(g, s, t))
    && forall q :: p < q <= k ==> ViewAt(ts, c, q).ReservedFor(g, s, t)
  }

  ghost predicate TurnEndsEpoch(ts: seq<Turn>, c: string, k: nat, g: string, t: FencingToken)
    requires k < |ts|
  {
    && ViewAt(ts, c, k).HeldBy(g, t) && !ViewAt(ts, c, k + 1).HeldBy(g, t)
    && (|| OverdueAt(ts, c, k)
        || Asked(ts, c, k, ReleaseBy(g, t))
        || (exists s: string, p: nat ::
              PreparedByTurn(ts, c, p, k, g, s, t) && Asked(ts, c, k, CommitTo(g, s, t))))
  }

  lemma EpochEndIsTurn(
      ts: seq<Turn>, c: string, cs: seq<Claim>, ls: seq<Label>, k: nat, g: string, t: FencingToken)
    requires k < |ts| && Tells(ts, c, cs, ls) && EndsEpoch(cs, ls, k, g, t)
    ensures TurnEndsEpoch(ts, c, k, g, t)
  {
    assert cs[k] == ViewAt(ts, c, k) && cs[k + 1] == ViewAt(ts, c, k + 1);
    if exists s: string, p: nat :: PreparedAt(cs, ls, p, k, g, s, t) && ls[k].act == Some(CommitTo(g, s, t)) {
      var s: string, p: nat :| PreparedAt(cs, ls, p, k, g, s, t) && ls[k].act == Some(CommitTo(g, s, t));
      forall q | p < q <= k ensures ViewAt(ts, c, q).ReservedFor(g, s, t) {
        assert cs[q] == ViewAt(ts, c, q);
      }
      assert PreparedByTurn(ts, c, p, k, g, s, t);
    }
  }

  /**
   Under every interleaving a live epoch (g, t) ends only when a client's clock has passed the expiry of its
   lease, when a release names g and t, or when a commit names (g, s, t) after a prepare naming (g, s, t) that
   was not aborted.
   */
  lemma ClusterEpochEndsOnlyBy(ts: seq<Turn>, c: string, i: nat, j: nat, g: string, t: FencingToken)
    requires AllFresh(ts) && i < j <= |ts|
    requires ViewAt(ts, c, i).HeldBy(g, t) && !ViewAt(ts, c, j).HeldBy(g, t)
    ensures exists k :: i <= k < j && TurnEndsEpoch(ts, c, k, g, t)
  {
    ClusterRefinesMachine(ts, c);
    var cs, ls := ViewsOf(ts, c), LabelsOf(ts, c);
    assert cs[i] == ViewAt(ts, c, i) && cs[j] == ViewAt(ts, c, j);
    EpochEndsOnlyBy(cs, ls, i, j, g, t);
    var k :| i <= k < j && EndsEpoch(cs, ls, k, g, t);
    EpochEndIsTurn(ts, c, cs, ls, k, g, t);
  }
}
