/** In-process leases on resources: compatibility, fencing, and acquiring several at once. */
module ResourceLeases {
  import opened Names
  import opened ClaimRecords

  datatype Mode = Unset | Exclusive | Shared | ReadOnly | Maintenance | Migration | Administrative | Other(name: string)

  datatype Request = Request(purpose: string, mode: Mode, owner: string, ttl: int, fence: nat)

  datatype Lease = Lease(key: string, mode: Mode, owner: string, purpose: string, fence: nat, epoch: nat,
                         expiresAt: Option<int>, acquiredAt: int)

  /** What the registry knows about a resource. */
  datatype Entry = Entry(fencing: bool, epoch: nat)

  datatype LeaseResult =
    | Granted(lease: Lease)
    | OwnerRequired | NotFound | FenceRequired | Lockdown | LeaseHeld | StaleFence

  predicate ModesCompatible(a: Mode, b: Mode) {
    if a == Exclusive || b == Exclusive then false
    else if a == Maintenance || b == Maintenance || a == Migration || b == Migration
            || a == Administrative || b == Administrative then false
    else true
  }

  predicate RequiresFence(m: Mode) {
    m == Exclusive || m == Maintenance || m == Migration || m == Administrative
  }

  /** A mode that demands a fence is exactly one that shares with nobody. */
  lemma FencedModesDoNotShare(a: Mode)
    ensures RequiresFence(a) <==> forall b :: !ModesCompatible(a, b)
    ensures !RequiresFence(a) <==> ModesCompatible(a, a)
  {
    assert !RequiresFence(a) ==> ModesCompatible(a, Shared);
  }

  // ---------- lists of leases ----------

  predicate Live(l: Lease, now: int) {
    l.expiresAt == None || l.expiresAt.value > now
  }

  predicate Matches(l: Lease, owner: string, mode: Mode) {
    l.owner == owner && (mode == Unset || l.mode == mode)
  }

  function Unexpired(list: seq<Lease>, now: int): (kept: seq<Lease>)
    ensures |kept| <= |list|
    ensures forall l :: l in kept <==> l in list && Live(l, now)
  {
    if list == [] then [] else
      var last := list[|list| - 1];
      assert list == list[..|list| - 1] + [last];
      Unexpired(list[..|list| - 1], now) + (if Live(last, now) then [last] else [])
  }

  /** How many unexpired leases of the list the owner has in that mode. */
  function Count(list: seq<Lease>, owner: string, mode: Mode, now: int): nat {
    if list == [] then 0 else
      var last := list[|list| - 1];
      Count(list[..|list| - 1], owner, mode, now) +
      (if Live(last, now) && last.owner == owner && last.mode == mode then 1 else 0)
  }

  /** No two leases of the list exclude each other. */
  predicate PairwiseCompatible(list: seq<Lease>) {
    forall i, j :: 0 <= i < j < |list| ==> ModesCompatible(list[i].mode, list[j].mode)
  }

  lemma CountNext(list: seq<Lease>, l: Lease, owner: string, mode: Mode, now: int)
    ensures Count(list + [l], owner, mode, now) ==
            Count(list, owner, mode, now) + (if Live(l, now) && l.owner == owner && l.mode == mode then 1 else 0)
  {
    assert (list + [l])[..|list|] == list;
  }

  lemma {:induction false} CountConcat(a: seq<Lease>, b: seq<Lease>, owner: string, mode: Mode, now: int)
    ensures Count(a + b, owner, mode, now) == Count(a, owner, mode, now) + Count(b, owner, mode, now)
  {
    if b == [] {
      assert a + b == a;
    } else {
      assert (a + b)[..|a + b| - 1] == a + b[..|b| - 1];
      CountConcat(a, b[..|b| - 1], owner, mode, now);
    }
  }

  lemma {:induction false} CountUnexpired(list: seq<Lease>, owner: string, mode: Mode, now: int)
    ensures Count(Unexpired(list, now), owner, mode, now) == Count(list, owner, mode, now)
  {
    if list != [] {
      var init, last := list[..|list| - 1], list[|list| - 1];
      CountUnexpired(init, owner, mode, now);
      if Live(last, now) {
        CountNext(Unexpired(init, now), last, owner, mode, now);
      } else {
        assert Unexpired(list, now) == Unexpired(init, now);
      }
    }
  }

  lemma {:induction false} UnexpiredKeepsLive(list: seq<Lease>, now: int)
    requires forall l | l in list :: Live(l, now)
    ensures Unexpired(list, now) == list
  {
    if list != [] {
      var init, last := list[..|list| - 1], list[|list| - 1];
      UnexpiredKeepsLive(init, now);
      assert list == init + [last];
    }
  }

  lemma {:induction false} CountFindsMatch(list: seq<Lease>, owner: string, mode: Mode, now: int)
    ensures Count(list, owner, mode, now) > 0 ==> exists i :: 0 <= i < |list| && Matches(list[i], owner, mode)
  {
    if list != [] {
      CountFindsMatch(list[..|list| - 1], owner, mode, now);
    }
  }

  /** A list with two members or more holds only modes that share; a part of it is compatible as well. */
  lemma CompatibleMeansShareable(list: seq<Lease>, part: seq<Lease>)
    requires PairwiseCompatible(list) && |part| <= |list| && forall l | l in part :: l in list
    ensures PairwiseCompatible(part)
  {
    forall i, j | 0 <= i < j < |part| ensures ModesCompatible(part[i].mode, part[j].mode) {
      forall l | l in list ensures !RequiresFence(l.mode) {
        var k :| 0 <= k < |list| && list[k] == l;
        var k' := if k == 0 then 1 else 0;
        assert if k < k' then ModesCompatible(list[k].mode, list[k'].mode)
               else ModesCompatible(list[k'].mode, list[k].mode);
      }
      assert part[i] in part && part[j] in part;
    }
  }

  // ---------- the manager's state ----------

  datatype Manager = Manager(held: map<string, seq<Lease>>, fence: map<string, nat>) {

    function At(key: string): seq<Lease> {
      if key in held then held[key] else []
    }

    function Fence(key: string): nat {
      if key in fence then fence[key] else 0
    }

    /** Every list is kept non-empty, under its own key, with compatible leases. */
    ghost predicate WellFormed() {
      forall key | key in held ::
        held[key] != [] && PairwiseCompatible(held[key]) && forall l | l in held[key] :: l.key == key
    }
  }

  /** Replace the list of a key, dropping the key when nothing is left. */
  function WithList(held: map<string, seq<Lease>>, key: string, list: seq<Lease>): map<string, seq<Lease>> {
    if list == [] then held - {key} else held[key := list]
  }

  function Expire(m: Manager, key: string, now: int): Manager {
    m.(held := WithList(m.held, key, Unexpired(m.At(key), now)))
  }

  function Normal(req: Request): Request {
    if req.mode == Unset then req.(mode := Exclusive) else req
  }

  predicate NeedsFence(entry: Entry, mode: Mode) {
    entry.fencing && RequiresFence(mode)
  }

  predicate CompatibleWith(list: seq<Lease>, mode: Mode) {
    forall i :: 0 <= i < |list| ==> ModesCompatible(list[i].mode, mode)
  }

  function NewLease(key: string, req: Request, entry: Entry, now: int): Lease {
    Lease(key, req.mode, req.owner, req.purpose, req.fence, entry.epoch,
          if req.ttl > 0 then Some(now + req.ttl) else None, now)
  }

  /** Decide a request against unexpired leases and the resource's fence. */
  function Admit(e: Manager, key: string, req: Request, entry: Entry, now: int): (Manager, LeaseResult) {
    if !CompatibleWith(e.At(key), req.mode) then (e, LeaseHeld)
    else if NeedsFence(entry, req.mode) && req.fence < e.Fence(key) then (e, StaleFence)
    else
      var lease := NewLease(key, req, entry, now);
      var fence := if entry.fencing && req.fence > e.Fence(key) then e.fence[key := req.fence] else e.fence;
      (Manager(e.held[key := e.At(key) + [lease]], fence), Granted(lease))
  }

  /** What a lease request does; `entry` is what the registry holds for the key. */
  function TryLease(
      m: Manager, key: string, request: Request, entry: Option<Entry>, lockdown: bool,
      now: int): (Manager, LeaseResult) {
    var req := Normal(request);
    if req.owner == "" then (m, OwnerRequired)
    else if entry == None then (m, NotFound)
    else if NeedsFence(entry.value, req.mode) && req.fence == 0 then (m, FenceRequired)
    else if lockdown then (m, Lockdown)
    else Admit(Expire(m, key, now), key, req, entry.value, now)
  }

  predicate IsFirstMatch(list: seq<Lease>, i: nat, owner: string, mode: Mode) {
    i < |list| && Matches(list[i], owner, mode) && forall j :: 0 <= j < i ==> !Matches(list[j], owner, mode)
  }

  function Without(list: seq<Lease>, i: nat): seq<Lease>
    requires i < |list|
  {
    list[..i] + list[i + 1..]
  }

  /** The new state after releasing the owner's first lease in that mode, if there is one. */
  ghost predicate Released(m: Manager, key: string, owner: string, mode: Mode, m': Manager, found: bool) {
    if found then
      exists i ::
        IsFirstMatch(m.At(key), i, owner, mode) && m' == m.(held := WithList(m.held, key, Without(m.At(key), i)))
    else
      m' == m && forall i :: 0 <= i < |m.At(key)| ==> !Matches(m.At(key)[i], owner, mode)
  }

  // ---------- every operation keeps the lists compatible ----------

  lemma ExpireWellFormed(m: Manager, key: string, now: int)
    requires m.WellFormed()
    ensures Expire(m, key, now).WellFormed()
  {
    CompatibleMeansShareable(m.At(key), Unexpired(m.At(key), now));
  }

  lemma LeaseWellFormed(m: Manager, key: string, req: Request, entry: Option<Entry>, lockdown: bool, now: int)
    requires m.WellFormed()
    ensures TryLease(m, key, req, entry, lockdown, now).0.WellFormed()
  {
    ExpireWellFormed(m, key, now);
    var (m', r) := TryLease(m, key, req, entry, lockdown, now);
    if r.Granted? {
      var list := Expire(m, key, now).At(key);
      assert PairwiseCompatible(list + [r.lease]);
      assert m'.held[key] == list + [r.lease];
    }
  }

  lemma ReleaseWellFormed(m: Manager, key: string, owner: string, mode: Mode, m': Manager, found: bool)
    requires m.WellFormed() && Released(m, key, owner, mode, m', found)
    ensures m'.WellFormed()
  {
    if found {
      var i :|
        IsFirstMatch(m.At(key), i, owner, mode) && m' == m.(held := WithList(m.held, key, Without(m.At(key), i)));
      CompatibleMeansShareable(m.At(key), Without(m.At(key), i));
    }
  }

  // ---------- counting ----------

  lemma ExpireCounts(m: Manager, key: string, now: int, k: string, owner: string, mode: Mode)
    ensures Count(Expire(m, key, now).At(k), owner, mode, now) == Count(m.At(k), owner, mode, now)
    ensures AllLive(Expire(m, key, now).At(key), now)
    ensures k != key ==> Expire(m, key, now).At(k) == m.At(k)
  {
    CountUnexpired(m.At(key), owner, mode, now);
    assert Expire(m, key, now).At(key) == Unexpired(m.At(key), now);
  }

  lemma AdmitCounts(e: Manager, key: string, req: Request, entry: Entry, now: int, k: string, owner: string, mode: Mode)
    ensures var (m', r) := Admit(e, key, req, entry, now);
            Count(m'.At(k), owner, mode, now) ==
            Count(e.At(k), owner, mode, now) + (if r.Granted? && Is(r.lease, k, owner, mode) then 1 else 0)
  {
    CountNext(e.At(key), NewLease(key, req, entry, now), owner, mode, now);
    var (m', r) := Admit(e, key, req, entry, now);
    if r.Granted? && k == key {
      assert m'.At(k) == e.At(key) + [NewLease(key, req, entry, now)];
    } else {
      assert m'.At(k) == e.At(k);
    }
  }

  lemma LeaseCounts(m: Manager, key: string, req: Request, entry: Option<Entry>, lockdown: bool, now: int,
                    k: string, owner: string, mode: Mode)
    ensures var (m', r) := TryLease(m, key, req, entry, lockdown, now);
            Count(m'.At(k), owner, mode, now) ==
            Count(m.At(k), owner, mode, now) + (if r.Granted? && Is(r.lease, k, owner, mode) then 1 else 0)
  {
    ExpireCounts(m, key, now, k, owner, mode);
    if entry.Some? {
      AdmitCounts(Expire(m, key, now), key, Normal(req), entry.value, now, k, owner, mode);
    }
  }

  predicate Is(l: Lease, key: string, owner: string, mode: Mode) {
    l.key == key && l.owner == owner && l.mode == mode
  }

  lemma LeaseLeavesLive(
      m: Manager, key: string, req: Request, entry: Option<Entry>, lockdown: bool, now: int, k: string)
    ensures var (m', r) := TryLease(m, key, req, entry, lockdown, now);
            && (r.Granted? ==> AllLive(m'.At(key), now) && r.lease.key == key && r.lease.mode != Unset)
            && (AllLive(m.At(k), now) ==> AllLive(m'.At(k), now))
  {
    ExpireCounts(m, key, now, k, "", Unset);
    if entry.Some? {
      AdmitLeavesLive(Expire(m, key, now), key, Normal(req), entry.value, now, k);
    }
  }

  lemma AdmitLeavesLive(e: Manager, key: string, req: Request, entry: Entry, now: int, k: string)
    requires AllLive(e.At(key), now)
    ensures var (m', r) := Admit(e, key, req, entry, now);
            && AllLive(m'.At(key), now) && (r.Granted? ==> r.lease.key == key && r.lease.mode == req.mode)
            && (k != key ==> m'.At(k) == e.At(k))
  {
  }

  predicate AllLive(list: seq<Lease>, now: int) {
    forall l | l in list :: Live(l, now)
  }

  lemma WithoutCounts(list: seq<Lease>, i: nat, owner: string, mode: Mode, now: int)
    requires i < |list|
    ensures Count(Without(list, i), owner, mode, now) ==
            Count(list, owner, mode, now)
            - (if Live(list[i], now) && list[i].owner == owner && list[i].mode == mode then 1 else 0)
  {
    assert list == list[..i] + [list[i]] + list[i + 1..];
    CountConcat(list[..i] + [list[i]], list[i + 1..], owner, mode, now);
    CountConcat(list[..i], [list[i]], owner, mode, now);
    CountConcat(list[..i], list[i + 1..], owner, mode, now);
    CountNext([], list[i], owner, mode, now);
    assert [] + [list[i]] == [list[i]];
  }

  /** Releasing where nothing has expired takes exactly one lease off the owner's count in that mode. */
  lemma ReleaseCounts(m: Manager, key: string, owner: string, mode: Mode, m': Manager, found: bool, now: int,
                      k: string, owner': string, mode': Mode)
    requires Released(m, key, owner, mode, m', found) && AllLive(m.At(key), now) && mode != Unset
    requires Count(m.At(key), owner, mode, now) > 0
    ensures Count(m'.At(k), owner', mode', now) ==
            Count(m.At(k), owner', mode', now) - (if k == key && owner' == owner && mode' == mode then 1 else 0)
    ensures AllLive(m.At(k), now) ==> AllLive(m'.At(k), now)
  {
    CountFindsMatch(m.At(key), owner, mode, now);
    var i: nat :|
      IsFirstMatch(m.At(key), i, owner, mode) && m' == m.(held := WithList(m.held, key, Without(m.At(key), i)));
    assert m'.At(key) == Without(m.At(key), i) && (k != key ==> m'.At(k) == m.At(k));
    assert m.At(key)[i] in m.At(key);
    WithoutCounts(m.At(key), i, owner', mode', now);
  }

  /** How many of the leases are for this key, owner and mode. */
  function CountIn(leases: seq<Lease>, key: string, owner: string, mode: Mode): nat {
    if leases == [] then 0 else
      CountIn(leases[..|leases| - 1], key, owner, mode) + (if Is(leases[|leases| - 1], key, owner, mode) then 1 else 0)
  }

  /** Compared with `m0`, the manager holds just these leases more, and nothing under their keys has expired. */
  ghost predicate Holds(m0: Manager, m: Manager, leases: seq<Lease>, now: int) {
    && (forall k, owner, mode ::
          Count(m.At(k), owner, mode, now) == Count(m0.At(k), owner, mode, now) + CountIn(leases, k, owner, mode))
    && (forall i :: 0 <= i < |leases| ==> leases[i].mode != Unset && AllLive(m.At(leases[i].key), now))
  }

  lemma CountInNext(leases: seq<Lease>, l: Lease, key: string, owner: string, mode: Mode)
    ensures CountIn(leases + [l], key, owner, mode) ==
            CountIn(leases, key, owner, mode) + if Is(l, key, owner, mode) then 1 else 0
  {
    assert (leases + [l])[..|leases|] == leases;
  }

  lemma CountAfterLease(
      m0: Manager, m: Manager, leases: seq<Lease>, key: string, req: Request, entry: Option<Entry>, lockdown: bool,
      now: int, k: string, owner: string, mode: Mode)
    requires Holds(m0, m, leases, now)
    ensures var (m', r) := TryLease(m, key, req, entry, lockdown, now);
            var leases' := if r.Granted? then leases + [r.lease] else leases;
            Count(m'.At(k), owner, mode, now) == Count(m0.At(k), owner, mode, now) + CountIn(leases', k, owner, mode)
  {
    var (m', r) := TryLease(m, key, req, entry, lockdown, now);
    assert Count(m.At(k), owner, mode, now) == Count(m0.At(k), owner, mode, now) + CountIn(leases, k, owner, mode);
    LeaseCounts(m, key, req, entry, lockdown, now, k, owner, mode);
    if r.Granted? {
      CountInNext(leases, r.lease, k, owner, mode);
    }
  }

  lemma HoldsAfterLease(
      m0: Manager, m: Manager, leases: seq<Lease>, key: string, req: Request, entry: Option<Entry>, lockdown: bool,
      now: int)
    requires Holds(m0, m, leases, now)
    ensures var (m', r) := TryLease(m, key, req, entry, lockdown, now);
            Holds(m0, m', if r.Granted? then leases + [r.lease] else leases, now)
  {
    var (m', r) := TryLease(m, key, req, entry, lockdown, now);
    var leases' := if r.Granted? then leases + [r.lease] else leases;
    forall k, owner, mode
      ensures Count(m'.At(k), owner, mode, now) == Count(m0.At(k), owner, mode, now) + CountIn(leases', k, owner, mode)
    {
      CountAfterLease(m0, m, leases, key, req, entry, lockdown, now, k, owner, mode);
    }
    forall i | 0 <= i < |leases'| ensures leases'[i].mode != Unset && AllLive(m'.At(leases'[i].key), now) {
      LeaseLeavesLive(m, key, req, entry, lockdown, now, leases'[i].key);
    }
  }

  lemma HoldsAfterRelease(m0: Manager, m: Manager, leases: seq<Lease>, m': Manager, found: bool, now: int)
    requires leases != [] && Holds(m0, m, leases, now)
    requires var l := leases[|leases| - 1]; Released(m, l.key, l.owner, l.mode, m', found)
    ensures Holds(m0, m', leases[..|leases| - 1], now)
  {
    var init, l := leases[..|leases| - 1], leases[|leases| - 1];
    assert Count(m.At(l.key), l.owner, l.mode, now) ==
           Count(m0.At(l.key), l.owner, l.mode, now) + CountIn(leases, l.key, l.owner, l.mode);
    forall k, owner, mode
      ensures Count(m'.At(k), owner, mode, now) == Count(m0.At(k), owner, mode, now) + CountIn(init, k, owner, mode)
    {
      ReleaseCounts(m, l.key, l.owner, l.mode, m', found, now, k, owner, mode);
    }
    forall i | 0 <= i < |init| ensures init[i].mode != Unset && AllLive(m'.At(init[i].key), now) {
      assert init[i] == leases[i];
      ReleaseCounts(m, l.key, l.owner, l.mode, m', found, now, init[i].key, l.owner, l.mode);
    }
  }

  // ---------- the object ----------

  /** What surrounds one acquisition: the caller's context, the registry entry, and whether lockdown is on. */
  datatype Surroundings = Surroundings(cancelled: bool, entry: Option<Entry>, lockdown: bool)

  datatype AcquireResult = Acquired(leases: seq<Lease>) | EmptyRequest | BadKey | Cancelled | PartialAcquire

  const NO_REQUEST := Request("", Unset, "", 0, 0)

  method KeepUnexpired(list: seq<Lease>, now: int) returns (kept: seq<Lease>)
    ensures kept == Unexpired(list, now)
  {
    kept := [];
    var i := 0;
    while i < |list|
      invariant 0 <= i <= |list| && kept == Unexpired(list[..i], now)
    {
      assert list[..i + 1][..i] == list[..i];
      if !(list[i].expiresAt.Some? && list[i].expiresAt.value <= now) {
        kept := kept + [list[i]];
      }
      i := i + 1;
    }
    assert list[..i] == list;
  }

  class LeaseManager {
    var held: map<string, seq<Lease>>
    var fence: map<string, nat>

    ghost function State(): Manager
      reads this
    {
      Manager(held, fence)
    }

    ghost predicate Valid()
      reads this
    {
      State().WellFormed()
    }

    constructor ()
      ensures Valid() && State() == Manager(map[], map[])
    {
      held, fence := map[], map[];
    }

    method ExpireKey(key: string, now: int)
      requires Valid()
      modifies this`held
      ensures Valid() && State() == Expire(old(State()), key, now)
    {
      ExpireWellFormed(State(), key, now);
      if key !in held {
        return;
      }
      var kept := KeepUnexpired(held[key], now);
      if |kept| == 0 {
        held := held - {key};
      } else {
        held := held[key := kept];
      }
    }

    method CheckCompatible(key: string, mode: Mode) returns (ok: bool)
      ensures ok <==> CompatibleWith(State().At(key), mode)
    {
      if key !in held {
        return true;
      }
      var list, i := held[key], 0;
      while i < |list|
        invariant 0 <= i <= |list| && forall j :: 0 <= j < i ==> ModesCompatible(list[j].mode, mode)
      {
        if !ModesCompatible(list[i].mode, mode) {
          return false;
        }
        i := i + 1;
      }
      return true;
    }

    method LeaseOne(key: string, request: Request, entry: Option<Entry>, lockdown: bool, now: int)
      returns (r: LeaseResult)
      requires Valid()
      modifies this
      ensures Valid() && (State(), r) == TryLease(old(State()), key, request, entry, lockdown, now)
    {
      LeaseWellFormed(State(), key, request, entry, lockdown, now);
      var req := request;
      if req.owner == "" {
        return OwnerRequired;
      }
      if req.mode == Unset {
        req := req.(mode := Exclusive);
      }
      if entry.None? {
        return NotFound;
      }
      var needsFence := entry.value.fencing && RequiresFence(req.mode);
      if needsFence && req.fence == 0 {
        return FenceRequired;
      }
      if lockdown {
        return Lockdown;
      }
      ExpireKey(key, now);
      r := AdmitHere(key, req, entry.value, now);
    }

    method AdmitHere(key: string, req: Request, entry: Entry, now: int) returns (r: LeaseResult)
      modifies this
      ensures (State(), r) == Admit(old(State()), key, req, entry, now)
    {
      var needsFence := entry.fencing && RequiresFence(req.mode);
      var ok := CheckCompatible(key, req.mode);
      if !ok {
        return LeaseHeld;
      }
      var current := if key in fence then fence[key] else 0;
      if needsFence {
        if req.fence < current {
          return StaleFence;
        }
        if req.fence > current {
          fence := fence[key := req.fence];
        }
      } else if entry.fencing && req.fence > current {
        fence := fence[key := req.fence];
      }
      var expiresAt := None;
      if req.ttl > 0 {
        expiresAt := Some(now + req.ttl);
      }
      var lease := Lease(key, req.mode, req.owner, req.purpose, req.fence, entry.epoch, expiresAt, now);
      held := held[key := (if key in held then held[key] else []) + [lease]];
      return Granted(lease);
    }

    method Release(key: string, owner: string, mode: Mode) returns (found: bool)
      requires Valid()
      modifies this`held
      ensures Valid() && Released(old(State()), key, owner, mode, State(), found)
    {
      if key !in held {
        return false;
      }
      var list, i := held[key], 0;
      while i < |list|
        invariant 0 <= i <= |list| && held == old(held)
        invariant forall j :: 0 <= j < i ==> !Matches(list[j], owner, mode)
      {
        if list[i].owner == owner && (mode == Unset || list[i].mode == mode) {
          held := held[key := list[..i] + list[i + 1..]];
          if |held[key]| == 0 {
            held := held - {key};
          }
          assert IsFirstMatch(old(State()).At(key), i, owner, mode);
          assert held == WithList(old(held), key, Without(list, i));
          ReleaseWellFormed(old(State()), key, owner, mode, State(), true);
          return true;
        }
        i := i + 1;
      }
      return false;
    }

    /** Release leases, last acquired first. */
    method ReleaseLeases(leases: seq<Lease>, ghost m0: Manager, ghost now: int)
      requires Valid() && Holds(m0, State(), leases, now)
      modifies this`held
      ensures Valid() && Holds(m0, State(), [], now)
    {
      var i := |leases|;
      assert leases[..i] == leases;
      while i > 0
        invariant 0 <= i <= |leases| && Valid() && Holds(m0, State(), leases[..i], now)
      {
        i := i - 1;
        var l := leases[i];
        ghost var m := State();
        var found := Release(l.key, l.owner, l.mode);
        assert leases[..i + 1][..i] == leases[..i];
        HoldsAfterRelease(m0, m, leases[..i + 1], State(), found, now);
      }
    }

    /**
     Lease several resources in the order of their identifiers. Whatever goes wrong on the way, with the clock
     standing still a failure leaves every owner's unexpired leases as many as before, per resource and mode; a
     success adds exactly the leases it returns.
     */
    method AcquireAll(
        reqs: map<string, Request>, parse: string -> Option<string>, around: nat -> Surroundings, now: int)
      returns (r: AcquireResult)
      requires Valid()
      modifies this
      ensures Valid()
      ensures r.Acquired? ==> Holds(old(State()), State(), r.leases, now)
      ensures r.Acquired? ==> exists ids :: |ids| == |reqs| && Ascending(ids) && Fulfils(reqs, ids, r.leases)
      ensures !r.Acquired? ==> forall k, owner, mode ::
                Count(State().At(k), owner, mode, now) == Count(old(State()).At(k), owner, mode, now)
    {
      if |reqs| == 0 {
        return EmptyRequest;
      }
      var ids, rest := [], reqs.Keys;
      while rest != {}
        invariant rest <= reqs.Keys && |ids| + |rest| == |reqs|
        decreases rest
      {
        var k :| k in rest;
        rest := rest - {k};
        var id := parse(k);
        if id.None? {
          return BadKey;
        }
        ids := ids + [id.value];
      }
      var sorted := SortStrings(ids);
      assert |sorted| == |multiset(sorted)| == |multiset(ids)| == |ids|;
      r := AcquireInOrder(reqs, sorted, around, now);
    }

    /** Lease the resources one after the other, giving all back as soon as one is refused. */
    method AcquireInOrder(reqs: map<string, Request>, ids: seq<string>, around: nat -> Surroundings, now: int)
      returns (r: AcquireResult)
      requires Valid()
      modifies this
      ensures Valid()
      ensures r.Acquired? ==> Holds(old(State()), State(), r.leases, now) && Fulfils(reqs, ids, r.leases)
      ensures !r.Acquired? ==> Holds(old(State()), State(), [], now)
    {
      ghost var m0 := State();
      var leases := [];
      var i := 0;
      while i < |ids|
        invariant 0 <= i <= |ids|
        invariant Valid() && Holds(m0, State(), leases, now) && Fulfils(reqs, ids[..i], leases)
      {
        var failure;
        failure, leases := AcquireNext(m0, reqs, ids[i], around(i), now, leases);
        if failure.Some? {
          return failure.value;
        }
        assert ids[..i + 1] == ids[..i] + [ids[i]];
        i := i + 1;
      }
      assert ids[..i] == ids;
      return Acquired(leases);
    }

    method AcquireNext(
        ghost m0: Manager, reqs: map<string, Request>, id: string, s: Surroundings, now: int, leases: seq<Lease>)
      returns (failure: Option<AcquireResult>, leases': seq<Lease>)
      requires Valid() && Holds(m0, State(), leases, now)
      modifies this
      ensures Valid() && Holds(m0, State(), leases', now)
      ensures failure.Some? ==> !failure.value.Acquired? && leases' == []
      ensures failure.None? ==>
                && |leases'| == |leases| + 1 && leases'[..|leases|] == leases
                && Fulfils(reqs, [id], leases'[|leases|..])
    {
      if s.cancelled {
        ReleaseLeases(leases, m0, now);
        return Some(Cancelled), [];
      }
      var req := if id in reqs then reqs[id] else NO_REQUEST;
      HoldsAfterLease(m0, State(), leases, id, req, s.entry, s.lockdown, now);
      var got := LeaseOne(id, req, s.entry, s.lockdown, now);
      if !got.Granted? {
        ReleaseLeases(leases, m0, now);
        return Some(PartialAcquire), [];
      }
      return None, leases + [got.lease];
    }
  }

  /** One lease for each identifier, in that order, as requested for it. */
  ghost predicate Fulfils(reqs: map<string, Request>, ids: seq<string>, leases: seq<Lease>) {
    && |leases| == |ids|
    && forall i :: 0 <= i < |ids| ==>
         && ids[i] in reqs && leases[i].key == ids[i]
         && leases[i].owner == reqs[ids[i]].owner && leases[i].mode == Normal(reqs[ids[i]]).mode
  }

  // ---------- runs ----------

  datatype Op =
    | DoLease(key: string, req: Request, entry: Option<Entry>, lockdown: bool, now: int)
    | DoRelease(key: string, owner: string, mode: Mode)
    | DoLook(key: string, now: int)

  ghost predicate Step(m: Manager, op: Op, m': Manager) {
    match op
    case DoLease(key, req, entry, lockdown, now) => m' == TryLease(m, key, req, entry, lockdown, now).0
    case DoRelease(key, owner, mode) => exists found :: Released(m, key, owner, mode, m', found)
    case DoLook(key, now) => m' == Expire(m, key, now)
  }

  ghost predicate Run(ms: seq<Manager>, ops: seq<Op>) {
    && |ms| == |ops| + 1 && ms[0] == Manager(map[], map[])
    && forall i :: 0 <= i < |ops| ==> Step(ms[i], ops[i], ms[i + 1])
  }

  lemma StepWellFormed(m: Manager, op: Op, m': Manager)
    requires m.WellFormed() && Step(m, op, m')
    ensures m'.WellFormed()
  {
    match op
    case DoLease(key, req, entry, lockdown, now) => LeaseWellFormed(m, key, req, entry, lockdown, now);
    case DoRelease(key, owner, mode) =>
      var found :| Released(m, key, owner, mode, m', found);
      ReleaseWellFormed(m, key, owner, mode, m', found);
    case DoLook(key, now) => ExpireWellFormed(m, key, now);
  }

  lemma NextWellFormed(ms: seq<Manager>, ops: seq<Op>, i: nat)
    requires Run(ms, ops) && i < |ops| && ms[i].WellFormed()
    ensures ms[i + 1].WellFormed()
  {
    assert Step(ms[i], ops[i], ms[i + 1]);
    StepWellFormed(ms[i], ops[i], ms[i + 1]);
  }

  lemma {:induction false} RunWellFormed(ms: seq<Manager>, ops: seq<Op>, i: nat)
    requires Run(ms, ops) && i < |ms|
    ensures ms[i].WellFormed()
  {
    if i > 0 {
      RunWellFormed(ms, ops, i - 1);
      NextWellFormed(ms, ops, i - 1);
    }
  }

  /** In every run, by any callers in any order, the leases on each resource are pairwise compatible at all times. */
  lemma LeasesStayCompatible(ms: seq<Manager>, ops: seq<Op>, i: nat)
    requires Run(ms, ops) && i < |ms|
    ensures ms[i].WellFormed() && forall key :: PairwiseCompatible(ms[i].At(key))
  {
    RunWellFormed(ms, ops, i);
  }

  /** Operation `i` is granted a lease on `key` that needs a fence. */
  ghost predicate FencedGrant(ms: seq<Manager>, ops: seq<Op>, i: nat, key: string)
    requires Run(ms, ops) && i < |ops|
  {
    var op := ops[i];
    && op.DoLease? && op.key == key && op.entry.Some? && NeedsFence(op.entry.value, Normal(op.req).mode)
    && TryLease(ms[i], op.key, op.req, op.entry, op.lockdown, op.now).1.Granted?
  }

  lemma {:induction false} FenceNeverDrops(ms: seq<Manager>, ops: seq<Op>, i: nat, j: nat, key: string)
    requires Run(ms, ops) && i <= j < |ms|
    ensures ms[i].Fence(key) <= ms[j].Fence(key)
  {
    if i < j {
      FenceNeverDrops(ms, ops, i, j - 1, key);
      assert Step(ms[j - 1], ops[j - 1], ms[j]);
    }
  }

  /** Successive grants that need a fence carry fences that never go down, and never 0. */
  lemma GrantedFencesNeverDecrease(ms: seq<Manager>, ops: seq<Op>, i: nat, j: nat, key: string)
    requires Run(ms, ops) && i < j < |ops| && FencedGrant(ms, ops, i, key) && FencedGrant(ms, ops, j, key)
    ensures 0 < ops[i].req.fence <= ops[j].req.fence
  {
    assert Step(ms[i], ops[i], ms[i + 1]);
    FenceNeverDrops(ms, ops, i + 1, j, key);
  }
}
