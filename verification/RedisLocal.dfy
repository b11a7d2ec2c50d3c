/** The in-process stand-in for the Redis backend: each method is one critical section under its mutex. */
module RedisLocal {
  import opened ClaimRecords
  import opened ClaimRules
  import opened ClaimStore

  method AdvanceLocal(cur: FencingToken) returns (next: FencingToken, err: Error)
    ensures err == Ok <==> cur < MAX_SAFE_TOKEN
    ensures next == if err == Ok then cur + 1 else cur
    ensures err == Ok || err == ErrTokenOverflow
  {
    if cur >= MAX_SAFE_TOKEN {
      return cur, ErrTokenOverflow;
    }
    return cur + 1, Ok;
  }

  class Local {
    var claims: map<string, ClaimRecord>
    var ops: map<string, Reply>

    constructor ()
      ensures State() == EMPTY_STORE
    {
      claims, ops := map[], map[];
    }

    ghost function State(): Store
      reads this
    {
      Store(claims, ops)
    }

    /** The state and reply of this call are the ones `Apply` gives. */
    ghost predicate Did(before: Store, req: Request, now: int, rec: Option<ClaimRecord>, err: Error)
      reads this
    {
      Apply(RedisLocal, before, req, now) == (State(), Reply(rec, err))
    }

    method Recall(id: string) returns (found: bool, rec: Option<ClaimRecord>, err: Error)
      ensures found <==> id != "" && id in ops
      ensures found ==> Reply(rec, err) == ops[id]
    {
      if id == "" {
        return false, None, Ok;
      }
      if id in ops {
        return true, ops[id].rec, ops[id].err;
      }
      return false, None, Ok;
    }

    method Keep(id: string, rec: Option<ClaimRecord>, err: Error)
      modifies this`ops
      ensures ops == Remember(old(ops), id, Reply(rec, err))
    {
      if id == "" {
        return;
      }
      ops := ops[id := Reply(rec, err)];
    }

    method Expire(name: string, now: int)
      requires name in claims
      modifies this`claims
      ensures claims == old(claims)[name := Refreshed(RedisLocal, old(claims)[name], now)]
    {
      var cl := claims[name];
      if cl.expiresAt == Zero || now < cl.expiresAt.tick {
        assert claims == claims[name := cl];
        return;
      }
      if cl.phase == Owned || cl.phase == Reserved || cl.phase == Draining {
        cl := cl.(previousOwner := cl.owner);
        cl := cl.(owner := "", pendingSuccessor := "", phase := Unowned, reason := ReasonExpired,
                  version := cl.version + 1);
      }
      claims := claims[name := cl];
    }

    method GetClaim(name: string, now: int) returns (rec: Option<ClaimRecord>, err: Error)
      modifies this
      ensures Did(old(State()), Get(name), now, rec, err)
    {
      if name !in claims {
        return None, ErrClaimNotFound;
      }
      Expire(name, now);
      return Some(claims[name]), Ok;
    }

    method AcquireClaim(name: string, gen: string, ttl: int, op: string, now: int)
      returns (rec: Option<ClaimRecord>, err: Error)
      modifies this
      ensures Did(old(State()), Acquire(name, gen, ttl, op), now, rec, err)
    {
      var found;
      found, rec, err := Recall(op);
      if found {
        return;
      }
      if name !in claims {
        claims := claims[name := FreshRecord(name)];
      }
      Expire(name, now);
      assert claims == old(claims)[name := Refreshed(RedisLocal, Lookup(old(State()), name), now)];
      var cl := claims[name];
      if cl.phase == Owned || cl.phase == Reserved || cl.phase == Draining {
        if cl.owner == gen {
          cl := cl.(expiresAt := At(now + ttl), lastHeartbeat := At(now), reason := ReasonRenewed,
                    version := cl.version + 1);
          claims := claims[name := cl];
          Keep(op, Some(cl), Ok);
          return Some(cl), Ok;
        }
        Keep(op, Some(cl), ErrClaimHeld);
        return Some(cl), ErrClaimHeld;
      }
      var next;
      next, err := AdvanceLocal(cl.token);
      if err != Ok {
        Keep(op, None, err);
        return None, err;
      }
      cl := cl.(owner := gen, token := next, phase := Owned, acquiredAt := At(now), expiresAt := At(now + ttl),
                lastHeartbeat := At(now), reason := ReasonAcquired, version := cl.version + 1);
      claims := claims[name := cl];
      Keep(op, Some(cl), Ok);
      return Some(cl), Ok;
    }

    method RenewClaim(name: string, gen: string, token: FencingToken, ttl: int, op: string, now: int)
      returns (rec: Option<ClaimRecord>, err: Error)
      modifies this
      ensures Did(old(State()), Renew(name, gen, token, ttl, op), now, rec, err)
    {
      var found;
      found, rec, err := Recall(op);
      if found {
        return;
      }
      if name !in claims {
        return None, ErrClaimNotFound;
      }
      Expire(name, now);
      var cl := claims[name];
      if cl.owner != gen {
        return None, ErrNotOwner;
      }
      if cl.token != token {
        return None, ErrStaleToken;
      }
      if cl.phase != Owned && cl.phase != Draining && cl.phase != Reserved {
        return None, ErrNotOwner;
      }
      cl := cl.(expiresAt := At(now + ttl), lastHeartbeat := At(now), reason := ReasonRenewed,
                version := cl.version + 1);
      claims := claims[name := cl];
      Keep(op, Some(cl), Ok);
      return Some(cl), Ok;
    }

    method PrepareTransfer(name: string, from: string, to: string, token: FencingToken, ttl: int, op: string, now: int)
      returns (rec: Option<ClaimRecord>, err: Error)
      modifies this
      ensures Did(old(State()), Prepare(name, from, to, token, ttl, op), now, rec, err)
    {
      var found;
      found, rec, err := Recall(op);
      if found {
        return;
      }
      if name !in claims {
        return None, ErrClaimNotFound;
      }
      Expire(name, now);
      var cl := claims[name];
      if cl.owner != from {
        return None, ErrNotOwner;
      }
      if cl.token != token {
        return None, ErrStaleToken;
      }
      if cl.phase == Reserved && cl.pendingSuccessor != "" && cl.pendingSuccessor != to {
        return None, ErrConcurrentTransfer;
      }
      if cl.phase == Reserved && cl.pendingSuccessor == to {
        Keep(op, Some(cl), Ok);
        return Some(cl), Ok;
      }
      cl := cl.(phase := Reserved, pendingSuccessor := to, transferStatus := Prepared,
                drainStatus := DrainComplete, expiresAt := At(now + ttl), lastHeartbeat := At(now),
                reason := ReasonTransferPrepared, version := cl.version + 1);
      claims := claims[name := cl];
      Keep(op, Some(cl), Ok);
      return Some(cl), Ok;
    }

    method CommitTransfer(name: string, from: string, to: string, token: FencingToken, ttl: int, op: string, now: int)
      returns (rec: Option<ClaimRecord>, err: Error)
      modifies this
      ensures Did(old(State()), Commit(name, from, to, token, ttl, op), now, rec, err)
    {
      var found;
      found, rec, err := Recall(op);
      if found {
        return;
      }
      if name !in claims {
        return None, ErrClaimNotFound;
      }
      Expire(name, now);
      var cl := claims[name];
      if cl.phase == Owned && cl.owner == to && cl.token == Successor64(token) && cl.transferStatus == Committed {
        Keep(op, Some(cl), Ok);
        return Some(cl), Ok;
      }
      if cl.phase != Reserved {
        return None, ErrNoTransfer;
      }
      if cl.owner != from || cl.pendingSuccessor != to {
        return None, ErrConcurrentTransfer;
      }
      if cl.token != token {
        return None, ErrStaleToken;
      }
      var next;
      next, err := AdvanceLocal(cl.token);
      if err != Ok {
        Keep(op, None, err);
        return None, err;
      }
      cl := cl.(previousOwner := cl.owner);
      cl := cl.(owner := to, token := next, phase := Owned, pendingSuccessor := "",
                transferStatus := Committed, drainStatus := NotDrained, acquiredAt := At(now),
                expiresAt := At(now + ttl), lastHeartbeat := At(now), reason := ReasonTransferCommitted,
                version := cl.version + 1);
      claims := claims[name := cl];
      Keep(op, Some(cl), Ok);
      return Some(cl), Ok;
    }

    method AbortTransfer(name: string, from: string, to: string, token: FencingToken, op: string, now: int)
      returns (rec: Option<ClaimRecord>, err: Error)
      modifies this
      ensures Did(old(State()), Abort(name, from, to, token, op), now, rec, err)
    {
      var found;
      found, rec, err := Recall(op);
      if found {
        return;
      }
      if name !in claims {
        return None, ErrClaimNotFound;
      }
      Expire(name, now);
      var cl := claims[name];
      if cl.phase != Reserved {
        if cl.owner == from && cl.phase == Owned {
          Keep(op, Some(cl), Ok);
          return Some(cl), Ok;
        }
        return None, ErrNoTransfer;
      }
      if cl.token != token {
        return None, ErrStaleToken;
      }
      if cl.owner != from {
        return None, ErrNotOwner;
      }
      cl := cl.(pendingSuccessor := "", phase := Owned, transferStatus := Aborted,
                reason := ReasonTransferAborted, version := cl.version + 1);
      claims := claims[name := cl];
      Keep(op, Some(cl), Ok);
      return Some(cl), Ok;
    }

    method ReleaseClaim(name: string, gen: string, token: FencingToken, op: string, now: int) returns (err: Error)
      modifies this
      ensures Did(old(State()), Release(name, gen, token, op), now, None, err)
    {
      var found, rec;
      found, rec, err := Recall(op);
      if found {
        return;
      }
      if name !in claims {
        return ErrClaimNotFound;
      }
      Expire(name, now);
      var cl := claims[name];
      if cl.token != token {
        return ErrStaleToken;
      }
      if cl.owner != gen {
        if cl.phase == Unowned {
          Keep(op, None, Ok);
          return Ok;
        }
        return ErrNotOwner;
      }
      cl := cl.(previousOwner := cl.owner);
      cl := cl.(owner := "", pendingSuccessor := "", phase := Unowned, reason := ReasonReleased,
                version := cl.version + 1);
      claims := claims[name := cl];
      Keep(op, Some(cl), Ok);
      return Ok;
    }
  }
}
