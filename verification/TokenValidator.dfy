/**
 The token validator: concurrent callers of `Accept`, each a loop of an atomic load and an atomic
 compare-and-swap on the stored epoch. Calls interleave freely between those two operations.
 */
module TokenValidator {
  import opened ClaimRecords

  /** A call to Accept. `Loaded` holds the value seen by its last load. */
  datatype Call =
    | Looping(token: FencingToken)
    | Loaded(token: FencingToken, seen: FencingToken)
    | Returned(token: FencingToken, accepted: bool)

  /** The stored epoch and the calls made so far. */
  datatype Validator = Validator(current: FencingToken, calls: map<nat, Call>)

  const NEW_VALIDATOR := Validator(0, map[])

  datatype Move =
    | Begin(id: nat, token: FencingToken)   // enter Accept
    | Load(id: nat)                         // read the epoch and compare
    | Swap(id: nat)                         // compare-and-swap

  predicate Possible(v: Validator, m: Move) {
    match m
    case Begin(id, _) => id !in v.calls
    case Load(id) => id in v.calls && v.calls[id].Looping?
    case Swap(id) => id in v.calls && v.calls[id].Loaded?
  }

  function Advance(v: Validator, m: Move): Validator
    requires Possible(v, m)
  {
    match m
    case Begin(id, token) =>
      v.(calls := v.calls[id := if token == 0 then Returned(token, false) else Looping(token)])
    case Load(id) =>
      var token := v.calls[id].token;
      v.(calls := v.calls[id := if token < v.current then Returned(token, false)
                                else if token == v.current then Returned(token, true)
                                else Loaded(token, v.current)])
    case Swap(id) =>
      var Loaded(token, seen) := v.calls[id];
      if v.current == seen
      then Validator(token, v.calls[id := Returned(token, true)])
      else v.(calls := v.calls[id := Looping(token)])
  }

  /** A run: `vs[i + 1]` follows from `vs[i]` by the move `ms[i]`. */
  ghost predicate Run(vs: seq<Validator>, ms: seq<Move>) {
    && |vs| == |ms| + 1
    && vs[0] == NEW_VALIDATOR
    && forall i :: 0 <= i < |ms| ==> Possible(vs[i], ms[i]) && vs[i + 1] == Advance(vs[i], ms[i])
  }

  /** Accepted tokens are at or below the epoch, and so is whatever a call has loaded. */
  ghost predicate Inv(v: Validator) {
    && (forall id | id in v.calls && v.calls[id].Returned? && v.calls[id].accepted ::
          0 < v.calls[id].token <= v.current)
    && (forall id | id in v.calls && v.calls[id].Loaded? ::
          v.calls[id].seen <= v.current && v.calls[id].seen < v.calls[id].token)
    && (forall id | id in v.calls && v.calls[id].Looping? :: 0 < v.calls[id].token)
  }

  lemma {:induction false} RunKeepsInv(vs: seq<Validator>, ms: seq<Move>, i: nat)
    requires Run(vs, ms) && i < |vs|
    ensures Inv(vs[i])
    decreases i
  {
    if i > 0 {
      RunKeepsInv(vs, ms, i - 1);
      assert vs[i] == Advance(vs[i - 1], ms[i - 1]);
    }
  }

  /** The stored epoch never decreases, and a call keeps its token and, once returned, its answer. */
  lemma {:induction false} EpochNeverDecreases(vs: seq<Validator>, ms: seq<Move>, i: nat, j: nat)
    requires Run(vs, ms) && i <= j < |vs|
    ensures vs[i].current <= vs[j].current
    ensures forall id | id in vs[i].calls ::
              && id in vs[j].calls && vs[j].calls[id].token == vs[i].calls[id].token
              && (vs[i].calls[id].Returned? ==> vs[j].calls[id] == vs[i].calls[id])
    decreases j
  {
    if i < j {
      EpochNeverDecreases(vs, ms, i, j - 1);
      RunKeepsInv(vs, ms, j - 1);
      assert Possible(vs[j - 1], ms[j - 1]) && vs[j] == Advance(vs[j - 1], ms[j - 1]);
    }
  }

  /** A call that returned true for `t` leaves the epoch at or above `t` for good. */
  lemma AcceptedStaysCovered(vs: seq<Validator>, ms: seq<Move>, i: nat, j: nat, a: nat)
    requires Run(vs, ms) && i <= j < |vs|
    requires a in vs[i].calls && vs[i].calls[a].Returned? && vs[i].calls[a].accepted
    ensures vs[i].calls[a].token <= vs[j].current
  {
    RunKeepsInv(vs, ms, i);
    EpochNeverDecreases(vs, ms, i, j);
  }

  /**
   Once Accept has returned true for a token, every call that begins later with a smaller token
   returns false, whatever runs concurrently with it.
   */
  lemma {:induction false} LaterSmallerTokenIsRejected(
      vs: seq<Validator>, ms: seq<Move>, i: nat, j: nat, a: nat, b: nat)
    requires Run(vs, ms) && i <= j < |vs|
    requires a in vs[i].calls && vs[i].calls[a].Returned? && vs[i].calls[a].accepted
    requires b !in vs[i].calls && b in vs[j].calls
    requires vs[j].calls[b].token < vs[i].calls[a].token
    ensures !vs[j].calls[b].Loaded?
    ensures vs[j].calls[b].Returned? ==> !vs[j].calls[b].accepted
    decreases j
  {
    assert Possible(vs[j - 1], ms[j - 1]) && vs[j] == Advance(vs[j - 1], ms[j - 1]);
    AcceptedStaysCovered(vs, ms, i, j - 1, a);
    if b in vs[j - 1].calls {
      LaterSmallerTokenIsRejected(vs, ms, i, j - 1, a, b);
    }
  }

  // ---------- termination ----------

  /** Move `i` is a failed compare-and-swap of call `id`. */
  ghost predicate Retries(vs: seq<Validator>, ms: seq<Move>, i: nat, id: nat)
    requires |vs| == |ms| + 1 && i < |ms|
  {
    ms[i] == Swap(id) && id in vs[i + 1].calls && vs[i + 1].calls[id].Looping?
  }

  ghost function CountRetries(vs: seq<Validator>, ms: seq<Move>, n: nat, id: nat): nat
    requires |vs| == |ms| + 1 && n <= |ms|
  {
    if n == 0 then 0
    else CountRetries(vs, ms, n - 1, id) + (if Retries(vs, ms, n - 1, id) then 1 else 0)
  }

  /** The number of retries a call can still make: its distance to the epoch it must beat. */
  function Budget(v: Validator, id: nat): int {
    if id !in v.calls || v.calls[id].Returned? then 0
    else if v.calls[id].Looping? then v.calls[id].token - v.current
    else v.calls[id].token - v.calls[id].seen
  }

  /**
   Every retry strictly shrinks the distance between the token and the value it compares against,
   so a call retries at most `token` times and cannot loop forever.
   */
  lemma {:induction false} RetriesAreBounded(vs: seq<Validator>, ms: seq<Move>, n: nat, id: nat)
    requires Run(vs, ms) && n < |vs|
    ensures id !in vs[n].calls ==> CountRetries(vs, ms, n, id) == 0
    ensures id in vs[n].calls ==> CountRetries(vs, ms, n, id) <= vs[n].calls[id].token
    ensures id in vs[n].calls && vs[n].calls[id].Loaded? ==> CountRetries(vs, ms, n, id) <= vs[n].calls[id].seen
    ensures id in vs[n].calls && vs[n].calls[id].Looping? ==> CountRetries(vs, ms, n, id) <= vs[n].current
  {
    if n > 0 {
      RetriesAreBounded(vs, ms, n - 1, id);
      RunKeepsInv(vs, ms, n - 1);
      EpochNeverDecreases(vs, ms, n - 1, n);
      assert Possible(vs[n - 1], ms[n - 1]) && vs[n] == Advance(vs[n - 1], ms[n - 1]);
    }
  }

  /** A failed compare-and-swap happens only when the epoch has moved past the value loaded. */
  lemma RetryMeansProgress(vs: seq<Validator>, ms: seq<Move>, i: nat, id: nat)
    requires Run(vs, ms) && i < |ms| && Retries(vs, ms, i, id)
    ensures vs[i].calls[id].Loaded? && vs[i].calls[id].seen < vs[i + 1].current
    ensures Budget(vs[i + 1], id) < Budget(vs[i], id)
  {
    RunKeepsInv(vs, ms, i);
    assert Possible(vs[i], ms[i]) && vs[i + 1] == Advance(vs[i], ms[i]);
  }
}
