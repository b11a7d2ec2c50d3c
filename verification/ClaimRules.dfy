/**
 What a backend decides about one claim record: the rules all three backends share, with the few
 points where they differ (`Dialect`). Each decision is one step of the abstract claim machine.
 */
module ClaimRules {
  import opened ClaimRecords
  import opened ClaimMachine

  /** The backends: in-memory, the in-process Redis stand-in, and Kubernetes leases. */
  datatype Dialect = Memory | RedisLocal | Kubernetes

  /** The lease of a live record has run out. Redis already counts the deadline itself. */
  predicate Overdue(d: Dialect, rec: ClaimRecord, now: int) {
    && rec.Live()
    && rec.expiresAt.At?
    && (if d == RedisLocal then rec.expiresAt.tick <= now else rec.expiresAt.tick < now)
  }

  /** The record after its lease ran out: the owner goes, the token stays. */
  function Lapsed(d: Dialect, rec: ClaimRecord): ClaimRecord {
    rec.(previousOwner := rec.owner, owner := "", pendingSuccessor := "", phase := Unowned,
         drainStatus := if d == Memory then NotDrained else rec.drainStatus,
         transferStatus := if d == Memory then NoTransfer else rec.transferStatus,
         reason := ReasonExpired, version := rec.version + 1)
  }

  function Refreshed(d: Dialect, rec: ClaimRecord, now: int): ClaimRecord {
    if Overdue(d, rec, now) then Lapsed(d, rec) else rec
  }

  /** Outcome of looking at an up-to-date record. */
  datatype Verdict =
    | Reject(err: Error)        // report the error, remember nothing
    | Answer(reply: Reply)      // leave the record alone, remember the reply
    | Write(rec: ClaimRecord)   // replace the record, remember success

  function Decide(d: Dialect, req: Request, rec: ClaimRecord, now: int): Verdict
    requires !req.Get?
  {
    match req
    case Acquire(_, gen, ttl, _) =>
      if rec.Live() then
        if rec.owner == gen then
          Write(rec.(expiresAt := At(now + ttl), lastHeartbeat := At(now), reason := ReasonRenewed,
                     version := if d == Memory then rec.version else rec.version + 1))
        else Answer(Reply(Some(rec), ErrClaimHeld))
      else if rec.token >= MAX_SAFE_TOKEN then Answer(Reply(None, ErrTokenOverflow))
      else
        var taken := rec.(owner := gen, token := rec.token + 1, phase := Owned, acquiredAt := At(now),
                          expiresAt := At(now + ttl), lastHeartbeat := At(now), reason := ReasonAcquired,
                          version := rec.version + 1);
        if d == RedisLocal then Write(taken)
        else Write(taken.(previousOwner := rec.owner, pendingSuccessor := "",
                          transferStatus := NoTransfer, drainStatus := NotDrained))

    case Renew(_, gen, token, ttl, _) =>
      if rec.owner != gen then Reject(ErrNotOwner)
      else if rec.token != token then Reject(ErrStaleToken)
      else if !rec.Live() then Reject(ErrNotOwner)
      else Write(rec.(expiresAt := At(now + ttl), lastHeartbeat := At(now), reason := ReasonRenewed,
                      version := rec.version + 1))

    case Prepare(_, from, to, token, ttl, _) =>
      if rec.owner != from then Reject(ErrNotOwner)
      else if rec.token != token then Reject(ErrStaleToken)
      else if rec.phase == Reserved && rec.pendingSuccessor != "" && rec.pendingSuccessor != to then
        Reject(ErrConcurrentTransfer)
      else if rec.phase == Reserved && rec.pendingSuccessor == to then Answer(Reply(Some(rec), Ok))
      else Write(rec.(phase := Reserved, pendingSuccessor := to, transferStatus := Prepared,
                      drainStatus := DrainComplete, expiresAt := At(now + ttl), lastHeartbeat := At(now),
                      reason := ReasonTransferPrepared, version := rec.version + 1))

    case Commit(_, from, to, token, ttl, _) =>
      if rec.phase == Owned && rec.owner == to && rec.token == Successor64(token) && rec.transferStatus == Committed
      then
        Answer(Reply(Some(rec), Ok))
      else if rec.phase != Reserved then Reject(ErrNoTransfer)
      else if rec.owner != from || rec.pendingSuccessor != to then Reject(ErrConcurrentTransfer)
      else if rec.token != token then Reject(ErrStaleToken)
      else if rec.token >= MAX_SAFE_TOKEN then Answer(Reply(None, ErrTokenOverflow))
      else Write(rec.(previousOwner := rec.owner, owner := to, token := rec.token + 1, phase := Owned,
                      pendingSuccessor := "", transferStatus := Committed, drainStatus := NotDrained,
                      acquiredAt := At(now), expiresAt := At(now + ttl), lastHeartbeat := At(now),
                      reason := ReasonTransferCommitted, version := rec.version + 1))

    case Abort(_, from, _, token, _) =>
      if rec.phase != Reserved then
        if rec.owner == from && rec.phase == Owned then Answer(Reply(Some(rec), Ok)) else Reject(ErrNoTransfer)
      else if rec.token != token then Reject(ErrStaleToken)
      else if rec.owner != from then Reject(ErrNotOwner)
      else Write(rec.(pendingSuccessor := "", phase := Owned, transferStatus := Aborted,
                      reason := ReasonTransferAborted, version := rec.version + 1))

    case Release(_, gen, token, _) =>
      if rec.token != token then Reject(ErrStaleToken)
      else if rec.owner != gen then
        if rec.phase == Unowned then Answer(Reply(None, Ok)) else Reject(ErrNotOwner)
      else Write(rec.(previousOwner := rec.owner, owner := "", pendingSuccessor := "", phase := Unowned,
                      transferStatus := if d == RedisLocal then rec.transferStatus else NoTransfer,
                      drainStatus := if d == RedisLocal then rec.drainStatus else NotDrained,
                      reason := ReasonReleased, version := rec.version + 1))
  }

  // ---------- refinement ----------

  /** The record as the abstract machine sees it. */
  function Abs(rec: ClaimRecord): Claim {
    Claim(rec.owner, rec.token, rec.phase, rec.pendingSuccessor)
  }

  /** The abstract action a request performs when it does change its claim. */
  function ActionOf(req: Request): Action
    requires !req.Get? && !req.Renew?
  {
    match req
    case Acquire(_, gen, _, _) => AcquireAs(gen)
    case Prepare(_, from, to, token, _, _) => PrepareTo(from, to, token)
    case Commit(_, from, to, token, _, _) => CommitTo(from, to, token)
    case Abort(_, from, _, token, _) => AbortBy(from, token)
    case Release(_, gen, token, _) => ReleaseBy(gen, token)
  }

  /** How a change from `c` to `c'` caused by `req` reads on the abstract machine. */
  function ActOf(req: Request, c: Claim, c': Claim): Option<Action> {
    if c' == c || req.Get? || req.Renew? then None else Some(ActionOf(req))
  }

  predicate ReleaseNames(req: Request, c: string, g: string, t: FencingToken) {
    req.Release? && req.claim == c && req.gen == g && req.token == t
  }

  predicate PrepareNames(req: Request, c: string, g: string, s: string, t: FencingToken) {
    req.Prepare? && req.claim == c && req.from == g && req.to == s && req.token == t
  }

  predicate CommitNames(req: Request, c: string, g: string, s: string, t: FencingToken) {
    req.Commit? && req.claim == c && req.from == g && req.to == s && req.token == t
  }

  /** The request names everything that the action it caused names. */
  predicate Names(req: Request, c: string, act: Option<Action>) {
    match act
    case None => true
    case Some(AcquireAs(g)) => req.Acquire? && req.claim == c && req.gen == g
    case Some(PrepareTo(g, s, t)) => PrepareNames(req, c, g, s, t)
    case Some(CommitTo(g, s, t)) => CommitNames(req, c, g, s, t)
    case Some(AbortBy(g, t)) => req.Abort? && req.claim == c && req.from == g && req.token == t
    case Some(ReleaseBy(g, t)) => ReleaseNames(req, c, g, t)
  }

  /** Lease expiry is the machine's expiry, and nothing else. */
  lemma RefreshIsExpiry(d: Dialect, rec: ClaimRecord, now: int)
    ensures Step(Abs(rec), Label(Overdue(d, rec, now), None), Abs(Refreshed(d, rec, now)))
  {
  }

  lemma DecisionKeepsName(d: Dialect, req: Request, rec: ClaimRecord, now: int)
    requires !req.Get?
    ensures Decide(d, req, rec, now).Write? ==> Decide(d, req, rec, now).rec.name == rec.name
  {
  }

  /** Whatever record a decision writes is one legal step of the machine away from the old one. */
  lemma DecisionIsStep(d: Dialect, req: Request, rec: ClaimRecord, now: int)
    requires !req.Get? && req.Named() && Abs(rec).WellFormed()
    ensures var v := Decide(d, req, rec, now);
            v.Write? ==> Step(Abs(rec), Label(false, ActOf(req, Abs(rec), Abs(v.rec))), Abs(v.rec))
  {
  }
}
