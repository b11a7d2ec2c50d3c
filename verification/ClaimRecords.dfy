/** Claim records, requests and errors shared by every ownership backend. */
module ClaimRecords {

  datatype Option<+T> = None | Some(value: T)

  /** A fencing token is a 64-bit unsigned integer. */
  const MAX_UINT64: int := 0xFFFF_FFFF_FFFF_FFFF
  type FencingToken = t: int | 0 <= t <= MAX_UINT64

  /** The last token that may be issued before terminal overflow. */
  const MAX_SAFE_TOKEN: FencingToken := MAX_UINT64 - 1

  /** `t + 1` as the source computes it on 64-bit unsigned integers. */
  function Successor64(t: FencingToken): FencingToken {
    if t == MAX_UINT64 then 0 else t + 1
  }

  /** A wall-clock instant; `Zero` is the unset time, which never counts as a deadline. */
  datatype Time = Zero | At(tick: int)

  datatype Phase = Unowned | Owned | Reserved | Draining

  datatype TransferStatus = NoTransfer | Prepared | Committed | Aborted

  datatype DrainStatus = NotDrained | DrainComplete

  datatype Reason =
    | NoReason
    | ReasonAcquired
    | ReasonRenewed
    | ReasonTransferPrepared
    | ReasonTransferCommitted
    | ReasonTransferAborted
    | ReasonReleased
    | ReasonExpired

  /** The durable state of one claim. An empty generation name means "nobody". */
  datatype ClaimRecord = ClaimRecord(
    name: string,
    owner: string,
    token: FencingToken,
    phase: Phase,
    acquiredAt: Time,
    expiresAt: Time,
    previousOwner: string,
    pendingSuccessor: string,
    drainStatus: DrainStatus,
    transferStatus: TransferStatus,
    lastHeartbeat: Time,
    reason: Reason,
    version: nat)
  {
    /** A claim is live while some generation controls it. */
    predicate Live() {
      phase == Owned || phase == Reserved || phase == Draining
    }

    predicate OwnedBy(gen: string) {
      phase == Owned && owner == gen && token != 0
    }

    predicate Controls(gen: string) {
      owner == gen && token != 0 && Live()
    }
  }

  function FreshRecord(name: string): ClaimRecord {
    ClaimRecord(name, "", 0, Unowned, Zero, Zero, "", "", NotDrained, NoTransfer, Zero, NoReason, 0)
  }

  /** The backend calls that concern one claim. An empty `op` means "no operation id". */
  datatype Request =
    | Get(claim: string)
    | Acquire(claim: string, gen: string, ttl: int, op: string)
    | Renew(claim: string, gen: string, token: FencingToken, ttl: int, op: string)
    | Prepare(claim: string, from: string, to: string, token: FencingToken, ttl: int, op: string)
    | Commit(claim: string, from: string, to: string, token: FencingToken, ttl: int, op: string)
    | Abort(claim: string, from: string, to: string, token: FencingToken, op: string)
    | Release(claim: string, gen: string, token: FencingToken, op: string)
  {
    function OperationID(): string {
      if Get? then "" else op
    }

    /** Callers never pass an empty generation or successor name. */
    predicate Named() {
      match this
      case Get(_) => true
      case Acquire(_, g, _, _) => g != ""
      case Renew(_, g, _, _, _) => g != ""
      case Prepare(_, f, s, _, _, _) => f != "" && s != ""
      case Commit(_, f, s, _, _, _) => f != "" && s != ""
      case Abort(_, f, s, _, _) => f != "" && s != ""
      case Release(_, g, _, _) => g != ""
    }
  }

  datatype Error =
    | Ok
    | ErrClaimHeld
    | ErrTokenOverflow
    | ErrClaimNotFound
    | ErrNotOwner
    | ErrStaleToken
    | ErrConcurrentTransfer
    | ErrNoTransfer

  /** What a backend call returns: an optional copy of the record, and an error. */
  datatype Reply = Reply(rec: Option<ClaimRecord>, err: Error)
}
