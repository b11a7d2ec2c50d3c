/** The bounded store of request identifiers that have been seen: a map of expiries and an arrival order. */
module AntiReplay {
  import opened Names

  const MINUTE := 60_000_000_000
  const DEFAULT_MAX: nat := 1024

  /** Expiry of each remembered key, and the keys oldest first. */
  datatype Cache = Cache(max: nat, entries: map<string, int>, order: seq<string>) {

    ghost predicate WellFormed() {
      && 0 < max && |order| <= max
      && NoDup(order)
      && (forall k :: k in order <==> k in entries)
    }
  }

  datatype Outcome = Accepted | Replayed | KeyRequired

  predicate LiveAt(entries: map<string, int>, k: string, now: int) {
    k in entries && entries[k] > now
  }

  /** The keys of `order` that are still live, in the same order. */
  function Kept(order: seq<string>, entries: map<string, int>, now: int): (kept: seq<string>)
    ensures |kept| <= |order|
  {
    if order == [] then [] else
      var init, last := order[..|order| - 1], order[|order| - 1];
      Kept(init, entries, now) + (if LiveAt(entries, last, now) then [last] else [])
  }

  function Evict(c: Cache, now: int): Cache {
    Cache(c.max, map k | k in c.entries && c.entries[k] > now :: c.entries[k], Kept(c.order, c.entries, now))
  }

  function Store(c: Cache, key: string, expiry: int): Cache
    requires c.WellFormed()
  {
    if key in c.entries then
      c.(entries := c.entries[key := expiry])
    else if |c.order| >= c.max then
      Cache(c.max, (c.entries - {c.order[0]})[key := expiry], c.order[1..] + [key])
    else
      Cache(c.max, c.entries[key := expiry], c.order + [key])
  }

  function Lifetime(ttl: int): (d: int)
    ensures d > 0
  {
    if ttl <= 0 then MINUTE else ttl
  }

  // ---------- eviction and storing keep the cache well formed ----------

  /** `a` is listed somewhere before `b`. */
  predicate Precedes(order: seq<string>, a: string, b: string) {
    exists i, j :: 0 <= i < j < |order| && order[i] == a && order[j] == b
  }

  lemma {:induction false} KeptAreLive(order: seq<string>, entries: map<string, int>, now: int)
    ensures forall k :: k in Kept(order, entries, now) <==> k in order && LiveAt(entries, k, now)
  {
    if order != [] {
      var init, last := order[..|order| - 1], order[|order| - 1];
      KeptAreLive(init, entries, now);
      assert order == init + [last];
    }
  }

  lemma {:induction false} KeptInOrder(order: seq<string>, entries: map<string, int>, now: int, a: string, b: string)
    ensures Precedes(Kept(order, entries, now), a, b) ==> Precedes(order, a, b)
    ensures Precedes(order, a, b) && LiveAt(entries, a, now) && LiveAt(entries, b, now) ==>
              Precedes(Kept(order, entries, now), a, b)
  {
    if order != [] {
      var init, last := order[..|order| - 1], order[|order| - 1];
      KeptInOrder(init, entries, now, a, b);
      KeptAreLive(init, entries, now);
      assert order == init + [last];
      PrecedesLast(init, last, a, b);
      if LiveAt(entries, last, now) {
        assert Kept(order, entries, now) == Kept(init, entries, now) + [last];
        PrecedesLast(Kept(init, entries, now), last, a, b);
      } else {
        assert Kept(order, entries, now) == Kept(init, entries, now);
      }
    }
  }

  /** Adding a key at the end puts it after everything listed and moves nothing else. */
  lemma PrecedesLast(init: seq<string>, last: string, a: string, b: string)
    ensures Precedes(init + [last], a, b) <==> Precedes(init, a, b) || (a in init && b == last)
  {
    var order := init + [last];
    if Precedes(order, a, b) {
      var i, j :| 0 <= i < j < |order| && order[i] == a && order[j] == b;
      assert init[i] == a;
      assert j < |init| ==> init[j] == b;
    }
    if Precedes(init, a, b) {
      var i, j :| 0 <= i < j < |init| && init[i] == a && init[j] == b;
      assert order[i] == a && order[j] == b;
    }
    if a in init && b == last {
      var i :| 0 <= i < |init| && init[i] == a;
      assert order[i] == a && order[|init|] == b;
    }
  }

  lemma {:induction false} KeptNoDup(order: seq<string>, entries: map<string, int>, now: int)
    requires NoDup(order)
    ensures NoDup(Kept(order, entries, now))
  {
    if order != [] {
      var init, last := order[..|order| - 1], order[|order| - 1];
      KeptNoDup(init, entries, now);
      KeptAreLive(init, entries, now);
      assert last !in init;
    }
  }

  lemma EvictWellFormed(c: Cache, now: int)
    requires c.WellFormed()
    ensures Evict(c, now).WellFormed()
  {
    KeptAreLive(c.order, c.entries, now);
    KeptNoDup(c.order, c.entries, now);
  }

  lemma StoreWellFormed(c: Cache, key: string, expiry: int)
    requires c.WellFormed()
    ensures Store(c, key, expiry).WellFormed()
  {
  }

  /** The first `i` keys have been gone through: the live ones are kept, the others are out of the map. */
  ghost predicate Compacted(c: Cache, now: int, i: nat, entries: map<string, int>, kept: seq<string>)
    requires i <= |c.order|
  {
    && kept == Kept(c.order[..i], c.entries, now)
    && (forall k :: k in entries <==> k in c.entries && (k in c.order[..i] ==> c.entries[k] > now))
    && (forall k | k in entries :: entries[k] == c.entries[k])
  }

  lemma CompactNothing(c: Cache, now: int)
    ensures Compacted(c, now, 0, c.entries, c.order[..0])
  {
  }

  lemma KeptNext(order: seq<string>, entries: map<string, int>, now: int, i: nat)
    requires i < |order|
    ensures Kept(order[..i + 1], entries, now) ==
            Kept(order[..i], entries, now) + if LiveAt(entries, order[i], now) then [order[i]] else []
    ensures forall k :: k in order[..i + 1] <==> k in order[..i] || k == order[i]
  {
    var more := order[..i + 1];
    assert more == order[..i] + [order[i]];
    assert more[..|more| - 1] == order[..i];
  }

  lemma CompactNext(c: Cache, now: int, i: nat, entries: map<string, int>, kept: seq<string>)
    requires c.WellFormed() && i < |c.order| && Compacted(c, now, i, entries, kept)
    ensures c.order[i] in entries
    ensures entries[c.order[i]] <= now ==> Compacted(c, now, i + 1, entries - {c.order[i]}, kept)
    ensures entries[c.order[i]] > now ==> Compacted(c, now, i + 1, entries, kept + [c.order[i]])
  {
    var k := c.order[i];
    assert k in c.order && k !in c.order[..i];
    KeptNext(c.order, c.entries, now, i);
    if entries[k] <= now {
      assert kept + [] == kept;
      forall x ensures x in entries - {k} <==> x in c.entries && (x in c.order[..i + 1] ==> c.entries[x] > now) {
      }
    }
  }

  lemma CompactedAll(c: Cache, now: int, entries: map<string, int>, kept: seq<string>)
    requires c.WellFormed() && Compacted(c, now, |c.order|, entries, kept)
    ensures entries == Evict(c, now).entries && kept == Evict(c, now).order
  {
    assert c.order[..|c.order|] == c.order;
  }

  lemma NothingToEvict(c: Cache, now: int)
    requires c.WellFormed() && |c.entries| == 0
    ensures Evict(c, now) == c
  {
    EntriesAreListed(c);
  }

  // ---------- the object ----------

  class ReplayCache {
    var max: nat
    var entries: map<string, int>
    var order: seq<string>

    ghost function State(): Cache
      reads this
    {
      Cache(max, entries, order)
    }

    ghost predicate Valid()
      reads this
    {
      State().WellFormed()
    }

    constructor (maxEntries: int)
      ensures Valid() && State() == Cache(if maxEntries <= 0 then DEFAULT_MAX else maxEntries, map[], [])
    {
      max := if maxEntries <= 0 then DEFAULT_MAX else maxEntries;
      entries := map[];
      order := [];
    }

    ghost predicate Compacting(c: Cache, now: int, i: nat, n: nat)
      requires n <= i <= |order|
      reads this
    {
      && |order| == |c.order| && order[i..] == c.order[i..]
      && Compacted(c, now, i, entries, order[..n])
    }

    /** Decide the key at position `i`: drop it, or move it up to position `n`. */
    method CompactKey(ghost c: Cache, now: int, i: nat, n: nat) returns (n': nat)
      requires c.WellFormed() && n <= i < |order| && Compacting(c, now, i, n)
      modifies this`entries, this`order
      ensures n <= n' <= i + 1 <= |order| && Compacting(c, now, i + 1, n')
    {
      n' := n;
      var k := order[i];
      assert k == order[i..][0] == c.order[i];
      CompactNext(c, now, i, entries, order[..n]);
      if k in entries {
        if entries[k] <= now {
          entries := entries - {k};
        } else {
          order := order[n := k];
          n' := n + 1;
          assert order[..n'] == old(order)[..n] + [k];
        }
      }
      assert order[i + 1..] == old(order)[i..][1..];
    }

    /** Drop expired keys, compacting the order in place. */
    method EvictExpired(now: int)
      requires Valid()
      modifies this
      ensures Valid() && State() == Evict(old(State()), now)
    {
      EvictWellFormed(State(), now);
      if |entries| == 0 {
        NothingToEvict(State(), now);
        return;
      }
      Compact(now);
    }

    method Compact(now: int)
      requires Valid()
      modifies this`entries, this`order
      ensures State() == Evict(old(State()), now)
    {
      ghost var c := State();
      var n, i := 0, 0;
      CompactNothing(c, now);
      while i < |order|
        invariant 0 <= n <= i <= |order|
        invariant Compacting(c, now, i, n)
      {
        n := CompactKey(c, now, i, n);
        i := i + 1;
      }
      CompactedAll(c, now, entries, order[..n]);
      order := order[..n];
    }

    /** Remember `key` until `expiry`, dropping the oldest key when full. */
    method StoreKey(key: string, expiry: int)
      requires Valid()
      modifies this
      ensures Valid() && State() == Store(old(State()), key, expiry)
    {
      StoreWellFormed(State(), key, expiry);
      EntriesAreListed(State());
      if key !in entries {
        if |entries| >= max {
          var oldest := order[0];
          order := order[1..];
          entries := entries - {oldest};
        }
        order := order + [key];
      }
      entries := entries[key := expiry];
    }

    method CheckAndStore(key: string, ttl: int, now: int) returns (outcome: Outcome)
      requires Valid()
      modifies this
      ensures Valid() && Perform(old(State()), Check(key, ttl, now)) == (State(), outcome)
    {
      if key == "" {
        return KeyRequired;
      }
      var d := if ttl <= 0 then MINUTE else ttl;
      EvictExpired(now);
      if key in entries && entries[key] > now {
        return Replayed;
      }
      StoreKey(key, now + d);
      return Accepted;
    }

    method Seen(key: string, now: int) returns (seen: bool)
      requires Valid()
      modifies this
      ensures Valid() && State() == Evict(old(State()), now)
      ensures seen <==> LiveAt(old(entries), key, now)
    {
      EvictExpired(now);
      seen := key in entries && entries[key] > now;
    }

    method Len(now: int) returns (n: nat)
      requires Valid()
      modifies this
      ensures Valid() && State() == Evict(old(State()), now)
      ensures n == |set k | k in old(entries) && LiveAt(old(entries), k, now)|
    {
      EvictExpired(now);
      n := |entries|;
      assert entries.Keys == set k | k in old(entries) && LiveAt(old(entries), k, now);
    }
  }

  lemma EntriesAreListed(c: Cache)
    requires c.WellFormed()
    ensures |c.entries| == |c.order|
  {
    NoDupSize(c.order);
    assert c.entries.Keys == Elements(c.order);
  }

  // ---------- runs ----------

  /** One call; `Look` stands for the queries, which only evict. */
  datatype Call = Check(key: string, ttl: int, at: int) | Look(at: int)

  function Perform(c: Cache, call: Call): (r: (Cache, Outcome))
    requires c.WellFormed()
    ensures r.0.WellFormed() && r.0.max == c.max
  {
    match call
    case Look(now) =>
      EvictWellFormed(c, now);
      (Evict(c, now), Accepted)
    case Check(key, ttl, now) =>
      EvictWellFormed(c, now);
      var e := Evict(c, now);
      if key == "" then (c, KeyRequired)
      else if LiveAt(e.entries, key, now) then (e, Replayed)
      else
        StoreWellFormed(e, key, now + Lifetime(ttl));
        (Store(e, key, now + Lifetime(ttl)), Accepted)
  }

  function Play(c: Cache, calls: seq<Call>): (r: Cache)
    requires c.WellFormed()
    ensures r.WellFormed() && r.max == c.max
  {
    if calls == [] then c else
      Perform(Play(c, calls[..|calls| - 1]), calls[|calls| - 1]).0
  }

  /** The keys accepted during a run. */
  function AcceptedKeys(c: Cache, calls: seq<Call>): set<string>
    requires c.WellFormed()
  {
    if calls == [] then {} else
      var init, last := calls[..|calls| - 1], calls[|calls| - 1];
      AcceptedKeys(c, init) +
      (if last.Check? && Perform(Play(c, init), last).1 == Accepted then {last.key} else {})
  }

  /** The clock readings of the run lie between `from` and `to` and never go back. */
  predicate Timed(calls: seq<Call>, from: int, to: int) {
    && from <= to
    && (forall i :: 0 <= i < |calls| ==> from <= calls[i].at <= to)
    && (forall i, j :: 0 <= i < j < |calls| ==> calls[i].at <= calls[j].at)
  }

  /** `key` is remembered until `expiry`, and only keys of `since` arrived after it. */
  ghost predicate Remembers(c: Cache, key: string, expiry: int, since: set<string>) {
    && key in c.entries && c.entries[key] == expiry
    && forall b | Precedes(c.order, key, b) :: b in since
  }

  lemma EvictRemembers(c: Cache, key: string, expiry: int, since: set<string>, now: int)
    requires c.WellFormed() && Remembers(c, key, expiry, since) && now < expiry
    ensures Remembers(Evict(c, now), key, expiry, since)
  {
    forall b | Precedes(Evict(c, now).order, key, b) ensures b in since {
      KeptInOrder(c.order, c.entries, now, key, b);
    }
  }

  /** A new key can only push out one that fewer than `max` keys have followed. */
  lemma StoreRemembers(c: Cache, key: string, expiry: int, since: set<string>, x: string, until: int)
    requires c.WellFormed() && Remembers(c, key, expiry, since)
    requires x !in c.entries && |since + {x}| < c.max
    ensures Remembers(Store(c, x, until), key, expiry, since + {x})
  {
    if |c.order| >= c.max && c.order[0] == key {
      var behind := c.order[1..] + [x];
      forall b | b in behind ensures b in since + {x} {
        if b != x {
          var j :| 0 <= j < |c.order[1..]| && c.order[1..][j] == b;
          assert c.order[0] == key && c.order[j + 1] == b;
          assert Precedes(c.order, key, b);
        }
      }
      assert x !in c.order;
      NoDupWithin(behind, since + {x});
      assert false;
    }
    forall b | Precedes(Store(c, x, until).order, key, b) ensures b in since + {x} {
      var rest := if |c.order| >= c.max then c.order[1..] else c.order;
      PrecedesLast(rest, x, key, b);
      if Precedes(rest, key, b) && rest != c.order {
        assert c.order == [c.order[0]] + rest;
        var i, j :| 0 <= i < j < |rest| && rest[i] == key && rest[j] == b;
        assert c.order[i + 1] == key && c.order[j + 1] == b;
      }
    }
  }

  lemma StepRemembers(c: Cache, key: string, expiry: int, since: set<string>, call: Call)
    requires c.WellFormed() && Remembers(c, key, expiry, since) && call.at < expiry && key != ""
    requires call.Check? ==> |since + {call.key}| < c.max || call.key == key || Perform(c, call).1 != Accepted
    ensures Remembers(Perform(c, call).0, key, expiry,
                      since + (if call.Check? && Perform(c, call).1 == Accepted then {call.key} else {}))
    ensures call.Check? && call.key == key ==> Perform(c, call).1 == Replayed
  {
    EvictWellFormed(c, call.at);
    EvictRemembers(c, key, expiry, since, call.at);
    var e := Evict(c, call.at);
    if call.Check? && Perform(c, call).1 == Accepted {
      StoreRemembers(e, key, expiry, since, call.key, call.at + Lifetime(call.ttl));
    }
  }

  lemma {:induction false} RunRemembers(c: Cache, key: string, expiry: int, calls: seq<Call>)
    requires c.WellFormed() && Remembers(c, key, expiry, {}) && key != ""
    requires forall i :: 0 <= i < |calls| ==> calls[i].at < expiry
    requires |AcceptedKeys(c, calls)| < c.max
    ensures Remembers(Play(c, calls), key, expiry, AcceptedKeys(c, calls))
  {
    if calls != [] {
      var init, last := calls[..|calls| - 1], calls[|calls| - 1];
      SubsetSize(AcceptedKeys(c, init), AcceptedKeys(c, calls));
      RunRemembers(c, key, expiry, init);
      StepRemembers(Play(c, init), key, expiry, AcceptedKeys(c, init), last);
    }
  }

  /**
   A key accepted with a lifetime is rejected as a replay at every later instant of that lifetime,
   as long as fewer than `max` keys were accepted in between.
   */
  lemma AcceptedKeyIsRejected(c: Cache, first: Call, between: seq<Call>, again: Call)
    requires c.WellFormed() && first.Check? && Perform(c, first).1 == Accepted
    requires again.Check? && again.key == first.key
    requires Timed(between + [again], first.at, first.at + Lifetime(first.ttl) - 1)
    requires |AcceptedKeys(Perform(c, first).0, between)| < c.max
    ensures Perform(Play(Perform(c, first).0, between), again).1 == Replayed
  {
    var c1, expiry := Perform(c, first).0, first.at + Lifetime(first.ttl);
    JustStored(c, first);
    forall i | 0 <= i < |between| ensures between[i].at < expiry {
      assert (between + [again])[i] == between[i];
    }
    RunRemembers(c1, first.key, expiry, between);
    assert (between + [again])[|between|] == again;
    StepRemembers(Play(c1, between), first.key, expiry, AcceptedKeys(c1, between), again);
  }

  /** An accepted key is the newest. */
  lemma JustStored(c: Cache, first: Call)
    requires c.WellFormed() && first.Check? && Perform(c, first).1 == Accepted
    ensures Remembers(Perform(c, first).0, first.key, first.at + Lifetime(first.ttl), {})
    ensures first.key != ""
  {
    EvictWellFormed(c, first.at);
    var e, c1 := Evict(c, first.at), Perform(c, first).0;
    assert first.key !in e.order;
    forall b ensures !Precedes(c1.order, first.key, b) {
      var rest := if |e.order| >= e.max then e.order[1..] else e.order;
      PrecedesLast(rest, first.key, first.key, b);
      assert first.key !in rest;
    }
  }

  // ---------- the bound is exact ----------

  /** If `key` is still listed, every key of `since` is listed after it and lives beyond `to`. */
  ghost predicate Crowded(c: Cache, key: string, since: set<string>, to: int) {
    key in c.entries ==> forall b | b in since :: Precedes(c.order, key, b) && LiveAt(c.entries, b, to)
  }

  lemma EvictCrowded(c: Cache, key: string, since: set<string>, now: int, to: int)
    requires Crowded(c, key, since, to) && now <= to
    ensures Crowded(Evict(c, now), key, since, to)
  {
    if key in Evict(c, now).entries {
      forall b | b in since ensures Precedes(Evict(c, now).order, key, b) {
        KeptInOrder(c.order, c.entries, now, key, b);
      }
    }
  }

  lemma StepCrowded(c: Cache, key: string, since: set<string>, call: Call, to: int)
    requires c.WellFormed() && Crowded(c, key, since, to) && call.at <= to
    requires call.Check? ==> call.key != key && call.at + Lifetime(call.ttl) > to
    ensures Crowded(Perform(c, call).0, key,
                    since + (if call.Check? && Perform(c, call).1 == Accepted then {call.key} else {}), to)
  {
    var e, c' := Evict(c, call.at), Perform(c, call).0;
    assert since + {} == since;
    if call.Check? && Perform(c, call).1 == Accepted {
      var until := call.at + Lifetime(call.ttl);
      EvictWellFormed(c, call.at);
      assert Crowded(e, key, since, to) by {
        EvictCrowded(c, key, since, call.at, to);
      }
      StoreCrowded(e, key, since, call.key, until, to);
      assert c' == Store(e, call.key, until);
    } else if c' == c {
    } else {
      EvictCrowded(c, key, since, call.at, to);
      assert c' == e;
    }
  }

  lemma StoreCrowded(c: Cache, key: string, since: set<string>, x: string, until: int, to: int)
    requires c.WellFormed() && Crowded(c, key, since, to)
    requires x !in c.entries && x != key && until > to
    ensures Crowded(Store(c, x, until), key, since + {x}, to)
  {
    var rest := if |c.order| >= c.max then c.order[1..] else c.order;
    if key in Store(c, x, until).entries {
      assert key in rest;
      forall b | b in since + {x} ensures Precedes(rest + [x], key, b) && LiveAt(Store(c, x, until).entries, b, to) {
        PrecedesLast(rest, x, key, b);
        if b != x {
          var i, j :| 0 <= i < j < |c.order| && c.order[i] == key && c.order[j] == b;
          if rest != c.order {
            assert rest[i - 1] == key && rest[j - 1] == b;
            assert Precedes(rest, key, b);
          }
        }
      }
    }
  }

  lemma {:induction false} RunCrowded(c: Cache, key: string, calls: seq<Call>, to: int)
    requires c.WellFormed()
    requires forall i :: 0 <= i < |calls| ==> calls[i].at <= to
    requires forall i :: 0 <= i < |calls| && calls[i].Check? ==>
               calls[i].key != key && calls[i].at + Lifetime(calls[i].ttl) > to
    ensures Crowded(Play(c, calls), key, AcceptedKeys(c, calls), to)
  {
    if calls != [] {
      var init, last := calls[..|calls| - 1], calls[|calls| - 1];
      RunCrowded(c, key, init, to);
      StepCrowded(Play(c, init), key, AcceptedKeys(c, init), last, to);
    }
  }

  lemma CrowdedOut(c: Cache, key: string, since: set<string>, to: int)
    requires c.WellFormed() && Crowded(c, key, since, to) && key !in since && |since| >= c.max
    ensures key !in c.entries
  {
    if key in c.entries {
      assert since + {key} <= Elements(c.order);
      SubsetSize(since + {key}, Elements(c.order));
      NoDupSize(c.order);
    }
  }

  lemma {:induction false} AcceptedWereChecked(c: Cache, calls: seq<Call>, key: string)
    requires c.WellFormed()
    requires forall i :: 0 <= i < |calls| && calls[i].Check? ==> calls[i].key != key
    ensures key !in AcceptedKeys(c, calls)
  {
    if calls != [] {
      AcceptedWereChecked(c, calls[..|calls| - 1], key);
    }
  }

  /**
   When the keys checked in between all outlive the second attempt, the replay is caught exactly if fewer
   than `max` of them were accepted: the bound on the cache cannot be relaxed.
   */
  lemma RejectedIffFewerThanMax(c: Cache, first: Call, between: seq<Call>, again: Call)
    requires c.WellFormed() && first.Check? && Perform(c, first).1 == Accepted
    requires again.Check? && again.key == first.key
    requires Timed(between + [again], first.at, first.at + Lifetime(first.ttl) - 1)
    requires forall i :: 0 <= i < |between| && between[i].Check? ==>
               between[i].key != first.key && between[i].at + Lifetime(between[i].ttl) > again.at
    ensures Perform(Play(Perform(c, first).0, between), again).1 == Replayed <==>
            |AcceptedKeys(Perform(c, first).0, between)| < c.max
  {
    var c1, key := Perform(c, first).0, first.key;
    if |AcceptedKeys(c1, between)| < c.max {
      AcceptedKeyIsRejected(c, first, between, again);
    } else {
      forall i | 0 <= i < |between| ensures between[i].at <= again.at {
        assert (between + [again])[i] == between[i] && (between + [again])[|between|] == again;
      }
      RunCrowded(c1, key, between, again.at);
      AcceptedWereChecked(c1, between, key);
      CrowdedOut(Play(c1, between), key, AcceptedKeys(c1, between), again.at);
    }
  }
}
