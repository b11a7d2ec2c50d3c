/** The token bucket with a concurrency gate, over real-valued seconds and tokens. */
module RateLimit {

  /** `capacity`, `rate` and `maxConcurrent` are fixed; the rest changes with the calls. */
  datatype Bucket = Bucket(capacity: real, rate: real, maxConcurrent: int,
                           tokens: real, last: real, inFlight: int, allowed: nat, rejected: nat) {

    predicate WellFormed() {
      && 0.0 < capacity && 0.0 < rate && 0.0 <= tokens <= capacity && 0 <= inFlight
      && (maxConcurrent > 0 ==> inFlight <= maxConcurrent)
    }
  }

  datatype Call = Allow(at: real) | Look(at: real) | Release

  function Gain(elapsed: real, rate: real): (g: real)
    ensures 0.0 <= elapsed && 0.0 <= rate ==> 0.0 <= g
  {
    elapsed * rate
  }

  function Refill(b: Bucket, now: real): Bucket {
    if now <= b.last then b else
      var filled := b.tokens + Gain(now - b.last, b.rate);
      b.(tokens := if filled > b.capacity then b.capacity else filled, last := now)
  }

  /** The tokens there would be at `now`. */
  function Level(b: Bucket, now: real): real {
    Refill(b, now).tokens
  }

  predicate Gated(b: Bucket) {
    b.maxConcurrent > 0 && b.inFlight >= b.maxConcurrent
  }

  predicate Allows(b: Bucket, call: Call) {
    call.Allow? && !Gated(b) && Level(b, call.at) >= 1.0
  }

  function Perform(b: Bucket, call: Call): Bucket {
    match call
    case Release => if b.inFlight > 0 then b.(inFlight := b.inFlight - 1) else b
    case Look(now) => Refill(b, now)
    case Allow(now) =>
      var f := Refill(b, now);
      if Allows(b, call) then f.(tokens := f.tokens - 1.0, inFlight := f.inFlight + 1, allowed := f.allowed + 1)
      else f.(rejected := f.rejected + 1)
  }

  class Resource {
    const capacity: real
    const rate: real
    const maxConcurrent: int
    var tokens: real
    var last: real
    var inFlight: int
    var rejected: nat
    var allowed: nat

    ghost function State(): Bucket
      reads this
    {
      Bucket(capacity, rate, maxConcurrent, tokens, last, inFlight, allowed, rejected)
    }

    ghost predicate Valid()
      reads this
    {
      State().WellFormed()
    }

    constructor (capacity: real, refillPerSecond: real, maxConcurrent: int, now: real)
      ensures Valid() && tokens == this.capacity && last == now && inFlight == 0 && allowed == 0 && rejected == 0
      ensures this.capacity == (if capacity <= 0.0 then 1.0 else capacity)
      ensures this.rate == (if refillPerSecond <= 0.0 then this.capacity else refillPerSecond)
      ensures this.maxConcurrent == maxConcurrent
    {
      var size := if capacity <= 0.0 then 1.0 else capacity;
      this.capacity, tokens := size, size;
      rate := if refillPerSecond <= 0.0 then size else refillPerSecond;
      this.maxConcurrent, last := maxConcurrent, now;
      inFlight, allowed, rejected := 0, 0, 0;
    }

    method RefillNow(now: real)
      requires Valid()
      modifies this`tokens, this`last
      ensures Valid() && State() == Refill(old(State()), now)
    {
      var elapsed := now - last;
      if elapsed <= 0.0 {
        return;
      }
      Product(elapsed, rate);
      tokens := tokens + elapsed * rate;
      if tokens > capacity {
        tokens := capacity;
      }
      last := now;
    }

    method TryAllow(now: real) returns (ok: bool)
      requires Valid()
      modifies this
      ensures Valid() && State() == Perform(old(State()), Allow(now))
      ensures ok <==> Allows(old(State()), Allow(now))
    {
      RefillNow(now);
      if maxConcurrent > 0 && inFlight >= maxConcurrent {
        rejected := rejected + 1;
        return false;
      }
      if tokens < 1.0 {
        rejected := rejected + 1;
        return false;
      }
      tokens := tokens - 1.0;
      inFlight := inFlight + 1;
      allowed := allowed + 1;
      return true;
    }

    method EndCall()
      requires Valid()
      modifies this`inFlight
      ensures Valid() && State() == Perform(old(State()), Release)
    {
      if inFlight > 0 {
        inFlight := inFlight - 1;
      }
    }
  }

  lemma Product(x: real, y: real)
    requires 0.0 <= x && 0.0 <= y
    ensures 0.0 <= x * y
  {
  }

  // ---------- runs ----------

  lemma StepKeepsWellFormed(b: Bucket, call: Call)
    requires b.WellFormed()
    ensures Perform(b, call).WellFormed()
    ensures Perform(b, call).capacity == b.capacity && Perform(b, call).rate == b.rate
    ensures Perform(b, call).maxConcurrent == b.maxConcurrent
  {
    if !call.Release? {
      RefillStaysFull(b, call.at);
    }
  }

  lemma RefillStaysFull(b: Bucket, now: real)
    requires b.WellFormed()
    ensures b.tokens <= Refill(b, now).tokens <= b.capacity
  {
    if now > b.last {
      var gain := Gain(now - b.last, b.rate);
      assert 0.0 <= gain;
    }
  }

  /** The states of a run: each call takes the bucket from one to the next. */
  predicate Run(bs: seq<Bucket>, calls: seq<Call>) {
    && |bs| == |calls| + 1 && bs[0].WellFormed()
    && forall i :: 0 <= i < |calls| ==> Stepped(bs, calls, i)
  }

  predicate Stepped(bs: seq<Bucket>, calls: seq<Call>, i: nat)
    requires i < |calls| && |bs| == |calls| + 1
  {
    bs[i + 1] == Perform(bs[i], calls[i])
  }

  /** Call `i` was let through, at a time between `a` and `z`. */
  predicate Passed(bs: seq<Bucket>, calls: seq<Call>, i: nat, a: real, z: real)
    requires i < |calls| && |bs| == |calls| + 1
  {
    bs[i + 1].allowed > bs[i].allowed && calls[i].Allow? && a <= calls[i].at <= z
  }

  /** How many of the first `n` calls are let through between `a` and `z`. */
  function Successes(bs: seq<Bucket>, calls: seq<Call>, n: nat, a: real, z: real): nat
    requires n <= |calls| && |bs| == |calls| + 1
  {
    if n == 0 then 0 else
      Successes(bs, calls, n - 1, a, z) + (if Passed(bs, calls, n - 1, a, z) then 1 else 0)
  }

  /** The clock starts at `from` and never goes back. */
  predicate Timed(calls: seq<Call>, from: real) {
    && (forall i :: 0 <= i < |calls| && !calls[i].Release? ==> from <= calls[i].at)
    && (forall i, j :: 0 <= i < j < |calls| && !calls[i].Release? && !calls[j].Release? ==> calls[i].at <= calls[j].at)
  }

  lemma {:induction false} RunKeepsWellFormed(bs: seq<Bucket>, calls: seq<Call>, n: nat)
    requires Run(bs, calls) && n <= |calls|
    ensures bs[n].WellFormed() && bs[n].capacity == bs[0].capacity && bs[n].rate == bs[0].rate
    ensures bs[n].maxConcurrent == bs[0].maxConcurrent
  {
    if n > 0 {
      RunKeepsWellFormed(bs, calls, n - 1);
      StepKeepsWellFormed(bs[n - 1], calls[n - 1]);
      assert Stepped(bs, calls, n - 1);
    }
  }

  /** The last refill is no later than any call still to come. */
  lemma {:induction false} LastIsPast(bs: seq<Bucket>, calls: seq<Call>, n: nat, now: real)
    requires Run(bs, calls) && n <= |calls| && bs[0].last <= now
    requires forall i :: 0 <= i < n && !calls[i].Release? ==> calls[i].at <= now
    ensures bs[n].last <= now
  {
    if n > 0 {
      LastIsPast(bs, calls, n - 1, now);
      assert Stepped(bs, calls, n - 1);
    }
  }

  /** What has been let through since `a`, plus what is left, is covered by the capacity and the refill since `a`. */
  ghost predicate Covered(b: Bucket, n: nat, a: real) {
    && (b.last < a ==> n == 0)
    && (b.last >= a ==> n as real + b.tokens <= b.capacity + b.rate * (b.last - a))
  }

  lemma RefillCovered(b: Bucket, n: nat, a: real, now: real)
    requires b.WellFormed() && Covered(b, n, a)
    ensures Covered(Refill(b, now), n, a)
  {
    if now > b.last {
      if b.last >= a {
        assert b.rate * (now - a) == b.rate * (b.last - a) + b.rate * (now - b.last);
      } else if now >= a {
        Product(b.rate, now - a);
      }
    }
  }

  lemma StepCovered(b: Bucket, n: nat, a: real, call: Call)
    requires b.WellFormed() && Covered(b, n, a) && (call.Release? || b.last <= call.at)
    ensures Covered(Perform(b, call), n, a)
    ensures call.Allow? && a <= call.at && Perform(b, call).allowed > b.allowed ==> Covered(Perform(b, call), n + 1, a)
  {
    var b' := Perform(b, call);
    if call.Release? {
      assert b'.rate * (b'.last - a) == b.rate * (b.last - a);
    } else {
      RefillCovered(b, n, a, call.at);
      var f := Refill(b, call.at);
      assert f.last == call.at && b'.last == f.last;
      assert b'.rate * (b'.last - a) == f.rate * (f.last - a);
    }
  }

  lemma {:induction false} RunCovered(bs: seq<Bucket>, calls: seq<Call>, n: nat, a: real, z: real)
    requires Run(bs, calls) && Timed(calls, bs[0].last) && n <= |calls|
    ensures Covered(bs[n], Successes(bs, calls, n, a, z), a)
  {
    if n == 0 {
      if bs[0].last >= a {
        Product(bs[0].rate, bs[0].last - a);
      }
    } else {
      var b, call := bs[n - 1], calls[n - 1];
      RunCovered(bs, calls, n - 1, a, z);
      RunKeepsWellFormed(bs, calls, n - 1);
      if !call.Release? {
        LastIsPast(bs, calls, n - 1, call.at);
      }
      StepCovered(b, Successes(bs, calls, n - 1, a, z), a, call);
      assert Stepped(bs, calls, n - 1);
    }
  }

  lemma CoveredIsBounded(b: Bucket, n: nat, a: real, z: real, capacity: real, rate: real)
    requires b.WellFormed() && b.capacity == capacity && b.rate == rate
    requires Covered(b, n, a) && b.last <= z && a <= z
    ensures n as real <= capacity + rate * (z - a)
  {
    Product(rate, z - a);
    if b.last >= a {
      Product(rate, z - b.last);
      assert rate * (z - a) == rate * (z - b.last) + rate * (b.last - a);
    }
  }

  /** Calls outside the window do not count. */
  lemma {:induction false} OthersDoNotCount(bs: seq<Bucket>, calls: seq<Call>, k: nat, n: nat, a: real, z: real)
    requires k <= n <= |calls| && |bs| == |calls| + 1
    requires forall i :: k <= i < n && !calls[i].Release? ==> calls[i].at > z
    ensures Successes(bs, calls, n, a, z) == Successes(bs, calls, k, a, z)
  {
    if k < n {
      OthersDoNotCount(bs, calls, k, n - 1, a, z);
    }
  }

  /** In time order the calls up to `z` come before the calls after it. */
  lemma SplitAt(calls: seq<Call>, from: real, z: real) returns (k: nat)
    requires Timed(calls, from)
    ensures k <= |calls|
    ensures forall i :: 0 <= i < k && !calls[i].Release? ==> calls[i].at <= z
    ensures forall i :: k <= i < |calls| && !calls[i].Release? ==> calls[i].at > z
  {
    k := |calls|;
    while k > 0 && (calls[k - 1].Release? || calls[k - 1].at > z)
      invariant k <= |calls|
      invariant forall i :: k <= i < |calls| && !calls[i].Release? ==> calls[i].at > z
    {
      k := k - 1;
    }
  }

  /**
   In every run under a clock that does not go back, the calls let through in any window [a, z] are at most the
   capacity plus what is refilled during the window.
   */
  lemma {:induction false} SuccessesAreBounded(bs: seq<Bucket>, calls: seq<Call>, a: real, z: real)
    requires Run(bs, calls) && Timed(calls, bs[0].last) && a <= z
    ensures Successes(bs, calls, |calls|, a, z) as real <= bs[0].capacity + bs[0].rate * (z - a)
  {
    var k := SplitAt(calls, bs[0].last, z);
    OthersDoNotCount(bs, calls, k, |calls|, a, z);
    if bs[0].last <= z {
      RunCovered(bs, calls, k, a, z);
      RunKeepsWellFormed(bs, calls, k);
      LastIsPast(bs, calls, k, z);
      CoveredIsBounded(bs[k], Successes(bs, calls, k, a, z), a, z, bs[0].capacity, bs[0].rate);
    } else {
      OthersDoNotCount(bs, calls, 0, k, a, z);
      assert Successes(bs, calls, |calls|, a, z) == 0;
      RunKeepsWellFormed(bs, calls, 0);
      Product(bs[0].rate, z - a);
    }
  }

  /** A call is let through exactly when a slot is free and a whole token is there, which a small bucket never has. */
  lemma PassesExactlyWhenAllowed(bs: seq<Bucket>, calls: seq<Call>, i: nat)
    requires Run(bs, calls) && i < |calls|
    ensures bs[i + 1].allowed > bs[i].allowed <==> Allows(bs[i], calls[i])
    ensures bs[0].capacity < 1.0 ==> bs[i + 1].allowed == bs[i].allowed
    ensures bs[0].maxConcurrent > 0 ==> 0 <= bs[i + 1].inFlight <= bs[0].maxConcurrent
  {
    assert Stepped(bs, calls, i);
    RunKeepsWellFormed(bs, calls, i);
    RunKeepsWellFormed(bs, calls, i + 1);
    if calls[i].Allow? && calls[i].at > bs[i].last {
      Product(calls[i].at - bs[i].last, bs[i].rate);
    }
  }
}
