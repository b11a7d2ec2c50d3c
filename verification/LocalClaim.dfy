/**
 The claim object a process keeps for one named claim. Every method body is a sequence of sections
 under the claim's mutex with backend calls in between; sections of concurrent calls interleave.
 */
module LocalClaim {
  import opened ClaimRecords

  /** A lease handed to workers. Revoking it cancels its context, which cannot be undone. */
  datatype Lease = Lease(token: FencingToken, revoked: bool)

  /**
   The fields of a claim object. `leases` are all leases ever created, `closings` says of every wait
   channel ever made how often it was closed, and `shutdown` that the coordinator's own context,
   the parent of every lease context, was cancelled.
   */
  datatype Fields = Fields(
    record: ClaimRecord,
    lease: Option<nat>,
    closed: bool,
    acquiring: bool,
    acquireCh: Option<nat>,
    leases: seq<Lease>,
    closings: seq<nat>,
    shutdown: bool)
  {
    predicate Valid(id: nat) {
      id < |leases| && !leases[id].revoked && !shutdown
    }

    predicate HasValidLease() {
      lease.Some? && Valid(lease.value)
    }

    /** The installed lease is revoked and removed. */
    function Dropped(): Fields {
      if lease.Some? && lease.value < |leases|
      then this.(lease := None, leases := leases[lease.value := leases[lease.value].(revoked := true)])
      else this.(lease := None)
    }

    /** A new lease is created and installed. */
    function WithLease(token: FencingToken): Fields {
      this.(lease := Some(|leases|), leases := leases + [Lease(token, false)])
    }

    function WithToken(token: FencingToken): Fields {
      if lease.Some? && lease.value < |leases|
      then this.(leases := leases[lease.value := leases[lease.value].(token := token)])
      else this
    }
  }

  // ---------- what each locked section does ----------

  datatype Entered = Refused(err: Error) | Have(id: nat) | Proceed(done: nat) | Shut

  /** tryAcquire, up to the backend call. */
  function Enter(f: Fields): (Fields, Entered) {
    if f.closed then (f, Shut)
    else if f.HasValidLease() then (f, Have(f.lease.value))
    else if f.acquiring then (f, Refused(ErrClaimHeld))
    else if f.acquireCh.Some? then (f.(acquiring := true), Proceed(f.acquireCh.value))
    else (f.(acquiring := true, acquireCh := Some(|f.closings|), closings := f.closings + [0]), Proceed(|f.closings|))
  }

  datatype Installed = MustRelease(token: FencingToken) | Keep(id: nat) | NotOurs | New(id: nat)

  /** tryAcquire, after the backend granted `rec`. */
  function Install(f: Fields, gen: string, rec: ClaimRecord): (Fields, Installed) {
    if f.closed then (f, MustRelease(rec.token))
    else if f.HasValidLease() then (f, Keep(f.lease.value))
    else
      var g := f.Dropped().(record := rec);
      if !rec.OwnedBy(gen) then (g, NotOurs)
      else (g.WithLease(rec.token), New(|g.leases|))
  }

  /** tryAcquire's deferred section: waiters on `done` are woken. */
  function Leave(f: Fields, done: nat): Fields {
    f.(acquiring := false, acquireCh := Some(|f.closings|),
       closings := (if done < |f.closings| then f.closings[done := f.closings[done] + 1] else f.closings) + [0])
  }

  function ApplyRecord(f: Fields, gen: string, rec: ClaimRecord): Fields {
    var g := f.(record := rec);
    if f.lease.None? then g
    else if !rec.Controls(gen) then g.Dropped()
    else g.WithToken(rec.token)
  }

  function EnsureLocalLease(f: Fields, gen: string): Fields {
    if f.closed || !f.record.Controls(gen) then f
    else if f.HasValidLease() then f.WithToken(f.record.token)
    else f.Dropped().WithLease(f.record.token)
  }

  function Close(f: Fields): Fields {
    f.(closed := true).Dropped()
  }

  class Claim {
    const gen: string
    var record: ClaimRecord
    var lease: Option<nat>
    var closed: bool
    var acquiring: bool
    var acquireCh: Option<nat>
    var leases: seq<Lease>
    var closings: seq<nat>
    var shutdown: bool

    constructor (gen: string, name: string)
      ensures State() == Created(name) && this.gen == gen
    {
      this.gen := gen;
      record, lease, closed, acquiring, acquireCh := FreshRecord(name), None, false, false, None;
      leases, closings, shutdown := [], [], false;
    }

    ghost function State(): Fields
      reads this
    {
      Fields(record, lease, closed, acquiring, acquireCh, leases, closings, shutdown)
    }

    ghost predicate Sane()
      reads this
    {
      && (lease.Some? ==> lease.value < |leases|)
      && (acquireCh.Some? ==> acquireCh.value < |closings|)
    }

    method RevokeAt(id: nat)
      requires id < |leases|
      modifies this`leases
      ensures leases == old(leases)[id := old(leases)[id].(revoked := true)]
    {
      leases := leases[id := leases[id].(revoked := true)];
    }

    method EnterSection() returns (next: Entered)
      requires Sane()
      modifies this
      ensures (State(), next) == Enter(old(State()))
    {
      if closed {
        return Shut;
      }
      if lease.Some? && !leases[lease.value].revoked && !shutdown {
        return Have(lease.value);
      }
      if acquiring {
        return Refused(ErrClaimHeld);
      }
      acquiring := true;
      if acquireCh == None {
        acquireCh := Some(|closings|);
        closings := closings + [0];
      }
      return Proceed(acquireCh.value);
    }

    method InstallSection(rec: ClaimRecord) returns (next: Installed)
      requires Sane()
      modifies this
      ensures (State(), next) == Install(old(State()), gen, rec)
    {
      if closed {
        return MustRelease(rec.token);
      }
      if lease.Some? && !leases[lease.value].revoked && !shutdown {
        return Keep(lease.value);
      }
      if lease.Some? {
        RevokeAt(lease.value);
        lease := None;
      }
      record := rec;
      if !rec.OwnedBy(gen) {
        return NotOurs;
      }
      leases := leases + [Lease(rec.token, false)];
      lease := Some(|leases| - 1);
      return New(|leases| - 1);
    }

    method LeaveSection(done: nat)
      requires Sane() && done < |closings|
      modifies this
      ensures State() == Leave(old(State()), done)
    {
      acquiring := false;
      acquireCh := Some(|closings|);
      closings := closings + [0];
      closings := closings[done := closings[done] + 1];
    }

    method ApplyRecordSection(rec: ClaimRecord)
      requires Sane()
      modifies this
      ensures State() == ApplyRecord(old(State()), gen, rec)
    {
      record := rec;
      if lease == None {
        return;
      }
      if !rec.Controls(gen) {
        RevokeAt(lease.value);
        lease := None;
        return;
      }
      leases := leases[lease.value := leases[lease.value].(token := rec.token)];
    }

    method EnsureLocalLeaseSection()
      requires Sane()
      modifies this
      ensures State() == EnsureLocalLease(old(State()), gen)
    {
      if closed {
        return;
      }
      if !record.Controls(gen) {
        return;
      }
      if lease.Some? && !leases[lease.value].revoked && !shutdown {
        leases := leases[lease.value := leases[lease.value].(token := record.token)];
        return;
      }
      if lease.Some? {
        RevokeAt(lease.value);
        lease := None;
      }
      leases := leases + [Lease(record.token, false)];
      lease := Some(|leases| - 1);
    }

    method RevokeLeaseSection()
      requires Sane()
      modifies this
      ensures State() == old(State()).Dropped()
    {
      if lease.Some? {
        RevokeAt(lease.value);
        lease := None;
      }
    }

    method CloseSection()
      requires Sane()
      modifies this
      ensures State() == Close(old(State()))
    {
      closed := true;
      if lease.Some? {
        RevokeAt(lease.value);
        lease := None;
      }
    }
  }

  function Created(name: string): Fields {
    Fields(FreshRecord(name), None, false, false, None, [], [], false)
  }

  // ---------- interleaving ----------

  datatype Result = GotLease(id: nat) | Failed | ClosedEarly | ClosedAfterAcquire

  /** Where a tryAcquire call is between its sections. */
  datatype Thread =
    | Calling(done: nat)                            // in the backend's AcquireClaim
    | Granted(done: nat, rec: ClaimRecord)          // the backend granted rec, section not yet entered
    | Releasing(done: nat, token: FencingToken)     // found the claim closed, about to release
    | Finishing(done: nat, result: Result)          // deferred section still to come
    | Returned(result: Result)

  /** The claim, its callers, what the backend granted each of them, and the releases they sent. */
  datatype System = System(
    claim: Fields,
    threads: map<nat, Thread>,
    granted: map<nat, FencingToken>,
    released: seq<(nat, FencingToken)>)

  datatype Move =
    | TryAcquire(t: nat)
    | BackendFails(t: nat)
    | BackendGrants(t: nat, rec: ClaimRecord)
    | Resume(t: nat)                   // the section after a grant
    | SendRelease(t: nat)
    | Depart(t: nat)                   // the deferred section
    | Applied(rec: ClaimRecord)
    | Restored(rec: ClaimRecord)       // restoreLease's first section
    | Ensured                          // restoreLease's second section
    | Revoked
    | Closed
    | Shutdown

  predicate Possible(s: System, m: Move) {
    match m
    case TryAcquire(t) => t !in s.threads
    case BackendFails(t) => t in s.threads && s.threads[t].Calling?
    case BackendGrants(t, _) => t in s.threads && s.threads[t].Calling?
    case Resume(t) => t in s.threads && s.threads[t].Granted?
    case SendRelease(t) => t in s.threads && s.threads[t].Releasing?
    case Depart(t) => t in s.threads && s.threads[t].Finishing?
    case _ => true
  }

  function Advance(gen: string, s: System, m: Move): System
    requires Possible(s, m)
  {
    match m
    case TryAcquire(t) =>
      var (f, next) := Enter(s.claim);
      s.(claim := f, threads := s.threads[t := match next
                                               case Shut => Returned(ClosedEarly)
                                               case Refused(_) => Returned(Failed)
                                               case Have(id) => Returned(GotLease(id))
                                               case Proceed(done) => Calling(done)])
    case BackendFails(t) => s.(threads := s.threads[t := Finishing(s.threads[t].done, Failed)])
    case BackendGrants(t, rec) =>
      s.(threads := s.threads[t := Granted(s.threads[t].done, rec)], granted := s.granted[t := rec.token])
    case Resume(t) =>
      var Granted(done, rec) := s.threads[t];
      var (f, next) := Install(s.claim, gen, rec);
      s.(claim := f, threads := s.threads[t := match next
                                               case MustRelease(token) => Releasing(done, token)
                                               case Keep(id) => Finishing(done, GotLease(id))
                                               case NotOurs => Finishing(done, Failed)
                                               case New(id) => Finishing(done, GotLease(id))])
    case SendRelease(t) =>
      var Releasing(done, token) := s.threads[t];
      s.(threads := s.threads[t := Finishing(done, ClosedAfterAcquire)], released := s.released + [(t, token)])
    case Depart(t) =>
      var Finishing(done, result) := s.threads[t];
      s.(claim := Leave(s.claim, done), threads := s.threads[t := Returned(result)])
    case Applied(rec) => s.(claim := ApplyRecord(s.claim, gen, rec))
    case Restored(rec) => s.(claim := s.claim.(record := rec))
    case Ensured => s.(claim := EnsureLocalLease(s.claim, gen))
    case Revoked => s.(claim := s.claim.Dropped())
    case Closed => s.(claim := Close(s.claim))
    case Shutdown => s.(claim := s.claim.(shutdown := true))
  }

  function Begun(name: string): System {
    System(Created(name), map[], map[], [])
  }

  ghost predicate Run(gen: string, name: string, ss: seq<System>, ms: seq<Move>) {
    && |ss| == |ms| + 1
    && ss[0] == Begun(name)
    && forall i :: 0 <= i < |ms| ==> Possible(ss[i], ms[i]) && ss[i + 1] == Advance(gen, ss[i], ms[i])
  }

  predicate InFlight(s: System, t: nat) {
    t in s.threads && !s.threads[t].Returned?
  }

  /** At most one lease is not revoked: the installed one. After close there is none. */
  ghost predicate LeasesInv(f: Fields) {
    && (forall id :: 0 <= id < |f.leases| && !f.leases[id].revoked ==> f.lease == Some(id))
    && (f.lease.Some? ==> f.lease.value < |f.leases|)
    && (f.closed ==> f.lease.None?)
  }

  /** One acquire in flight at a time, whose wait channel is the current one and still open. */
  ghost predicate ChannelsInv(s: System) {
    var f := s.claim;
    && (forall t | InFlight(s, t) :: f.acquiring && f.acquireCh == Some(s.threads[t].done))
    && (forall t, u | InFlight(s, t) && InFlight(s, u) :: t == u)
    && (f.acquiring ==> exists t :: InFlight(s, t))
    && (f.acquireCh.Some? ==> f.acquireCh.value < |f.closings| && f.closings[f.acquireCh.value] == 0)
    && (forall ch :: 0 <= ch < |f.closings| ==> f.closings[ch] <= 1)
  }

  predicate ClosedLate(th: Thread) {
    (th.Finishing? || th.Returned?) && th.result.ClosedAfterAcquire?
  }

  /** The calls that ended with "closed after acquire" each sent one release, for the token granted to them. */
  ghost predicate ReleasesInv(s: System) {
    && (forall t | t in s.threads && s.threads[t].Granted? :: t in s.granted && s.granted[t] == s.threads[t].rec.token)
    && (forall t | t in s.threads && s.threads[t].Releasing? :: t in s.granted && s.granted[t] == s.threads[t].token)
    && (forall t | t in s.threads && ClosedLate(s.threads[t]) :: t in s.granted && (t, s.granted[t]) in s.released)
    && (forall k :: 0 <= k < |s.released| ==> SentBy(s, s.released[k]))
    && (forall j, k :: 0 <= j < k < |s.released| ==> s.released[j].0 != s.released[k].0)
  }

  predicate SentBy(s: System, r: (nat, FencingToken)) {
    r.0 in s.threads && ClosedLate(s.threads[r.0]) && r.0 in s.granted && s.granted[r.0] == r.1
  }

  lemma SectionsKeepLeases(gen: string, s: System, m: Move)
    requires LeasesInv(s.claim) && Possible(s, m)
    ensures LeasesInv(Advance(gen, s, m).claim)
  {
  }

  /** Calls enter flight one by one through a free `acquiring` flag, and leave it by departing. */
  lemma FlightSteps(gen: string, s: System, m: Move, t: nat)
    requires Possible(s, m)
    ensures var s' := Advance(gen, s, m);
            var starts := m == TryAcquire(t) && Enter(s.claim).1.Proceed?;
            && (InFlight(s', t) <==> starts || (InFlight(s, t) && m != Depart(t)))
            && (starts ==> !s.claim.acquiring && s'.claim.acquireCh == Some(s'.threads[t].done))
            && (InFlight(s', t) && !starts ==> s'.threads[t].done == s.threads[t].done)
  {
  }

  predicate Touches(m: Move) {
    m.TryAcquire? || m.Depart?
  }

  lemma OnlyTouchesMatter(gen: string, s: System, m: Move)
    requires Possible(s, m)
    ensures var f, f' := s.claim, Advance(gen, s, m).claim;
            !Touches(m) ==> f'.acquiring == f.acquiring && f'.acquireCh == f.acquireCh && f'.closings == f.closings
  {
  }

  lemma SectionsKeepChannels(gen: string, s: System, m: Move)
    requires ChannelsInv(s) && Possible(s, m)
    ensures ChannelsInv(Advance(gen, s, m))
  {
    var s' := Advance(gen, s, m);
    OnlyTouchesMatter(gen, s, m);
    forall t ensures InFlight(s', t) ==> InFlight(s, t) || m == TryAcquire(t) {
      FlightSteps(gen, s, m, t);
    }
    if m.Depart? {
      assert InFlight(s, m.t);
    }
    forall t | InFlight(s', t) ensures s'.claim.acquiring && s'.claim.acquireCh == Some(s'.threads[t].done) {
      FlightSteps(gen, s, m, t);
    }
    forall t, u | InFlight(s', t) && InFlight(s', u) ensures t == u {
      FlightSteps(gen, s, m, t);
      FlightSteps(gen, s, m, u);
    }
    if s'.claim.acquiring {
      var t := if m.TryAcquire? && Enter(s.claim).1.Proceed? then m.t else var t :| InFlight(s, t); t;
      FlightSteps(gen, s, m, t);
      assert InFlight(s', t);
    }
  }

  lemma SectionsKeepReleases(gen: string, s: System, m: Move)
    requires ReleasesInv(s) && Possible(s, m)
    ensures ReleasesInv(Advance(gen, s, m))
  {
    var s' := Advance(gen, s, m);
    forall k | 0 <= k < |s.released| ensures SentBy(s', s.released[k]) {
      assert SentBy(s, s.released[k]);
    }
  }

  lemma {:induction false} RunKeepsInv(gen: string, name: string, ss: seq<System>, ms: seq<Move>, i: nat)
    requires Run(gen, name, ss, ms) && i < |ss|
    ensures LeasesInv(ss[i].claim) && ChannelsInv(ss[i]) && ReleasesInv(ss[i])
    decreases i
  {
    if i > 0 {
      RunKeepsInv(gen, name, ss, ms, i - 1);
      assert Possible(ss[i - 1], ms[i - 1]) && ss[i] == Advance(gen, ss[i - 1], ms[i - 1]);
      SectionsKeepLeases(gen, ss[i - 1], ms[i - 1]);
      SectionsKeepChannels(gen, ss[i - 1], ms[i - 1]);
      SectionsKeepReleases(gen, ss[i - 1], ms[i - 1]);
    }
  }

  /**
   Under every interleaving: the only lease not revoked is the installed one, so a lease some call
   returned is either that one or dead; and once the claim is closed no lease is alive.
   */
  lemma OnlyInstalledLeaseIsLive(gen: string, name: string, ss: seq<System>, ms: seq<Move>, i: nat, j: nat, t: nat)
    requires Run(gen, name, ss, ms) && i <= j < |ss|
    requires t in ss[i].threads && ss[i].threads[t].Returned? && ss[i].threads[t].result.GotLease?
    ensures var id, f := ss[i].threads[t].result.id, ss[j].claim;
            && (f.Valid(id) ==> f.lease == Some(id))
            && (f.closed ==> !f.Valid(id))
  {
    RunKeepsInv(gen, name, ss, ms, j);
  }

  /** At most one backend acquire is in flight, and no wait channel is ever closed twice. */
  lemma OneAcquireInFlight(gen: string, name: string, ss: seq<System>, ms: seq<Move>, i: nat, t: nat, u: nat)
    requires Run(gen, name, ss, ms) && i < |ss|
    requires InFlight(ss[i], t) && InFlight(ss[i], u)
    ensures t == u
    ensures forall ch :: 0 <= ch < |ss[i].claim.closings| ==> ss[i].claim.closings[ch] <= 1
    ensures var done, closings := ss[i].threads[t].done, ss[i].claim.closings;
            done < |closings| && closings[done] == 0
  {
    RunKeepsInv(gen, name, ss, ms, i);
  }

  /** Move `i` is the one in which call `t` finds the claim closed after the backend granted it `rec`. */
  ghost predicate GrantedTooLate(ss: seq<System>, ms: seq<Move>, i: nat, t: nat, rec: ClaimRecord) {
    && i < |ms| && i < |ss| && ms[i] == Resume(t) && ss[i].claim.closed
    && t in ss[i].threads && ss[i].threads[t].Granted? && ss[i].threads[t].rec == rec
  }

  /** Call `t` is about to release `token`, or has released it and reports that the claim was closed. */
  predicate GivesBack(s: System, t: nat, token: FencingToken) {
    && t in s.threads
    && if s.threads[t].Releasing? then s.threads[t].token == token
       else ClosedLate(s.threads[t]) && (t, token) in s.released
  }

  predicate SentOnce(s: System, t: nat, token: FencingToken) {
    exists k :: 0 <= k < |s.released| && s.released[k] == (t, token)
             && forall j :: 0 <= j < |s.released| && s.released[j].0 == t ==> j == k
  }

  lemma SectionsKeepGivingBack(gen: string, s: System, m: Move, t: nat, token: FencingToken)
    requires GivesBack(s, t, token) && Possible(s, m)
    ensures GivesBack(Advance(gen, s, m), t, token)
  {
    var s' := Advance(gen, s, m);
    assert s.released <= s'.released;
    if m == SendRelease(t) {
      assert s'.released[|s.released|] == (t, token);
    }
  }

  lemma {:induction false} LateGrantGoesBack(
      gen: string, name: string, ss: seq<System>, ms: seq<Move>, i: nat, j: nat, t: nat, rec: ClaimRecord)
    requires Run(gen, name, ss, ms) && GrantedTooLate(ss, ms, i, t, rec) && i < j < |ss|
    ensures GivesBack(ss[j], t, rec.token)
    decreases j
  {
    assert Possible(ss[j - 1], ms[j - 1]) && ss[j] == Advance(gen, ss[j - 1], ms[j - 1]);
    if j > i + 1 {
      LateGrantGoesBack(gen, name, ss, ms, i, j - 1, t, rec);
      SectionsKeepGivingBack(gen, ss[j - 1], ms[j - 1], t, rec.token);
    }
  }

  /**
   A grant that finds the claim closed is given back. From then on the call is about to release exactly the token
   it was granted, or has ended with "closed after acquire" and released that token once. It never gets a lease.
   */
  lemma LateGrantIsReleased(
      gen: string, name: string, ss: seq<System>, ms: seq<Move>, i: nat, j: nat, t: nat, rec: ClaimRecord)
    requires Run(gen, name, ss, ms) && GrantedTooLate(ss, ms, i, t, rec) && i < j < |ss|
    ensures t in ss[j].threads
    ensures var th := ss[j].threads[t];
            || (th.Releasing? && th.token == rec.token && forall token :: (t, token) !in ss[j].released)
            || (ClosedLate(th) && SentOnce(ss[j], t, rec.token))
  {
    LateGrantGoesBack(gen, name, ss, ms, i, j, t, rec);
    RunKeepsInv(gen, name, ss, ms, j);
    var s := ss[j];
    if s.threads[t].Releasing? {
      forall k | 0 <= k < |s.released| ensures s.released[k].0 != t {
        assert SentBy(s, s.released[k]);
      }
    } else {
      var k :| 0 <= k < |s.released| && s.released[k] == (t, rec.token);
    }
  }

  /** Conversely, a call releases something only because its grant found the claim closed. */
  lemma {:induction false} OnlyLateGrantsAreReleased(
      gen: string, name: string, ss: seq<System>, ms: seq<Move>, j: nat, t: nat)
      returns (i: nat)
    requires Run(gen, name, ss, ms) && j < |ss| && t in ss[j].threads
    requires ss[j].threads[t].Releasing? || ClosedLate(ss[j].threads[t])
    ensures i < j && t in ss[i].threads && ss[i].threads[t].Granted?
    ensures GrantedTooLate(ss, ms, i, t, ss[i].threads[t].rec)
    decreases j
  {
    assert j > 0;
    assert Possible(ss[j - 1], ms[j - 1]) && ss[j] == Advance(gen, ss[j - 1], ms[j - 1]);
    if ms[j - 1] == Resume(t) {
      i := j - 1;
    } else {
      i := OnlyLateGrantsAreReleased(gen, name, ss, ms, j - 1, t);
    }
  }
}
