/**
 The end-to-end guarantee of fenced writes for claims kept as Kubernetes leases: writes to a fenced resource, in any
 interleaving with reads, creates, version-checked updates, failures and crashes of the clients of the cluster.
 */
module ClusterWrites {
  import opened ClaimRecords
  import opened ClaimMachine
  import opened FencedWrites
  import K = KubernetesBackend

  /** `held` are the epochs claim `c` has had in the cluster so far. */
  datatype Site = Site(system: K.System, fence: Fence, held: set<Epoch>, log: seq<FencedWrite>)

  const FIRST_SITE := Site(K.BOOTED, UNWRITTEN, {}, [])

  datatype Happening = Turns(turn: K.Turn) | Tries(write: FencedWrite)

  function EpochIn(c: Claim): set<Epoch> {
    if c.Live() then {Epoch(c.owner, c.token)} else {}
  }

  function Evolve(c: string, w: Site, h: Happening): Site {
    match h
    case Turns(turn) =>
      var s := K.Take(w.system, turn);
      w.(system := s, held := w.held + EpochIn(K.View(s.cluster, c)))
    case Tries(write) =>
      if Accepts(w.fence, write.epoch.token)
      then w.(fence := Fence(write.epoch.token, write.value), log := w.log + [write])
      else w
  }

  /** Requests name their generations, and a writer uses an epoch the claim has had, however long ago. */
  predicate CanHappen(w: Site, h: Happening) {
    match h
    case Turns(turn) => turn.Go? ==> turn.req.Named()
    case Tries(write) => write.epoch in w.held
  }

  function SiteAfter(c: string, hs: seq<Happening>): Site {
    if hs == [] then FIRST_SITE else Evolve(c, SiteAfter(c, hs[..|hs| - 1]), hs[|hs| - 1])
  }

  ghost predicate CanAllHappen(c: string, hs: seq<Happening>) {
    forall k :: 0 <= k < |hs| ==> CanHappen(SiteAfter(c, hs[..k]), hs[k])
  }

  ghost predicate SiteInv(c: string, w: Site) {
    && K.Inv(w.system) && K.View(w.system.cluster, c).WellFormed()
    && EpochsDistinct(w.held, K.View(w.system.cluster, c))
    && WritesOrdered(w.fence, w.held, w.log)
  }

  lemma HappeningKeepsInv(c: string, w: Site, h: Happening)
    requires SiteInv(c, w) && CanHappen(w, h)
    ensures SiteInv(c, Evolve(c, w, h))
  {
    match h
    case Turns(turn) =>
      var s, s' := w.system, K.Take(w.system, turn);
      K.TurnIsStep(s, turn, c);
      K.TurnKeepsInv(s, turn);
      StepKeepsEpochsDistinct(w.held, K.View(s.cluster, c), K.LabelFor(s, turn, c), K.View(s'.cluster, c));
    case Tries(write) =>
      if Accepts(w.fence, write.epoch.token) {
        AcceptKeepsOrder(w.fence, w.held, w.log, write);
      }
  }

  lemma {:induction false} AllKeepInv(c: string, hs: seq<Happening>)
    requires CanAllHappen(c, hs)
    ensures SiteInv(c, SiteAfter(c, hs))
  {
    if hs != [] {
      var k := |hs| - 1;
      var init := hs[..k];
      assert forall i :: 0 <= i < k ==> init[..i] == hs[..i];
      AllKeepInv(c, init);
      HappeningKeepsInv(c, SiteAfter(c, init), hs[k]);
    }
  }

  /**
   In every interleaving of cluster turns and writes, accepted writes carry non-decreasing tokens, and all writes
   under one token come from one generation.
   */
  lemma NoStaleWriteLands(c: string, hs: seq<Happening>, i: nat, j: nat)
    requires CanAllHappen(c, hs)
    requires i <= j < |SiteAfter(c, hs).log|
    ensures var log := SiteAfter(c, hs).log;
            && log[i].epoch.token <= log[j].epoch.token
            && (log[i].epoch.token == log[j].epoch.token ==> log[i].epoch.gen == log[j].epoch.gen)
  {
    AllKeepInv(c, hs);
  }

  /** The generation that holds the lease is never fenced out by its own resource. */
  lemma CurrentHolderIsAccepted(c: string, hs: seq<Happening>, g: string, t: FencingToken)
    requires CanAllHappen(c, hs)
    requires K.View(SiteAfter(c, hs).system.cluster, c).HeldBy(g, t)
    ensures Accepts(SiteAfter(c, hs).fence, t)
  {
    AllKeepInv(c, hs);
  }
}
