/**
 Graceful handoff of a set of claims to a successor generation: reserve every claim, then commit
 every reservation, undoing what can be undone when a backend call fails on the way.
 */
module Handoff {
  import opened ClaimRecords
  import opened ClaimRules
  import opened ClaimStore
  import opened MemoryBackend
  import opened OperationIDs
  import L = LocalClaim

  datatype Status = Pending | DrainStarted | Transferring | CommittedAll | AbortedAll | Failed

  datatype Outcome = Fine | Policy | InvalidState | DrainFailed | BackendFailed | NoTransferYet | AlreadyAborted

  /** Every lease in the handoff outlives `until`; `now <= until` for every call made. */
  predicate Lasts(rec: ClaimRecord, until: int) {
    rec.expiresAt.At? ==> until <= rec.expiresAt.tick
  }

  type Claims = map<string, ClaimRecord>

  predicate OwnedIn(claims: Claims, n: string, gen: string, tok: FencingToken, until: int) {
    && n in claims
    && var r := claims[n];
       r.phase == Owned && r.owner == gen && r.token == tok && r.pendingSuccessor == "" && Lasts(r, until)
  }

  predicate ReservedIn(claims: Claims, n: string, gen: string, next: string, tok: FencingToken, until: int) {
    && n in claims
    && var r := claims[n];
       r.phase == Reserved && r.owner == gen && r.token == tok && r.pendingSuccessor == next && Lasts(r, until)
  }

  /** Only claim `n` and operation `op` differ. */
  predicate OnlyTouched(s: Store, s': Store, n: string, op: string) {
    && n in s'.claims && s'.claims == s.claims[n := s'.claims[n]]
    && s'.ops.Keys <= s.ops.Keys + {op}
  }

  lemma PrepareReserves(
      s: Store, n: string, gen: string, next: string, tok: FencingToken, ttl: int, op: string, now: int, until: int)
    requires OwnedIn(s.claims, n, gen, tok, until) && op !in s.ops && now <= until <= now + ttl
    ensures var (s', reply) := Apply(Memory, s, Prepare(n, gen, next, tok, ttl, op), now);
            && OnlyTouched(s, s', n, op)
            && reply == Reply(Some(s'.claims[n]), Ok) && ReservedIn(s'.claims, n, gen, next, tok, until)
  {
  }

  lemma CommitTransfers(
      s: Store, n: string, gen: string, next: string, tok: FencingToken, ttl: int, op: string, now: int, until: int)
    requires ReservedIn(s.claims, n, gen, next, tok, until) && op !in s.ops && now <= until
    ensures var (s', reply) := Apply(Memory, s, Commit(n, gen, next, tok, ttl, op), now);
            && OnlyTouched(s, s', n, op)
            && (if tok < MAX_SAFE_TOKEN
                then reply == Reply(Some(s'.claims[n]), Ok) && OwnedIn(s'.claims, n, next, tok + 1, now + ttl)
                else reply.err != Ok && s'.claims[n] == s.claims[n])
  {
  }

  lemma AbortRestores(
      s: Store, n: string, gen: string, next: string, tok: FencingToken, op: string, now: int, until: int)
    requires ReservedIn(s.claims, n, gen, next, tok, until) && op !in s.ops && now <= until
    ensures var (s', reply) := Apply(Memory, s, Abort(n, gen, next, tok, op), now);
            && OnlyTouched(s, s', n, op)
            && reply == Reply(Some(s'.claims[n]), Ok) && OwnedIn(s'.claims, n, gen, tok, until)
  {
  }

  ghost predicate SameElsewhere(a: Claims, b: Claims, keys: set<string>) {
    forall c | c !in keys :: (c in a <==> c in b) && (c in a ==> a[c] == b[c])
  }

  predicate Distinct(names: seq<string>) {
    forall i, j :: 0 <= i < j < |names| ==> names[i] != names[j]
  }

  /** How far a pass over `names` has come: `from`-kind claims ahead of `i`, `to`-kind claims behind. */
  datatype Kind = Mine(gen: string) | Booked(gen: string, next: string) | Theirs(next: string, deadline: int)

  predicate Is(claims: Claims, n: string, tok: FencingToken, kind: Kind, until: int) {
    match kind
    case Mine(gen) => OwnedIn(claims, n, gen, tok, until)
    case Booked(gen, next) => ReservedIn(claims, n, gen, next, tok, until)
    case Theirs(next, deadline) => tok < MAX_SAFE_TOKEN && OwnedIn(claims, n, next, tok + 1, deadline)
  }

  ghost predicate All(
      claims: Claims, ts: map<string, FencingToken>, names: seq<string>, lo: int, hi: int, kind: Kind, until: int) {
    forall j :: 0 <= lo <= j < hi <= |names| && names[j] in ts ==> Is(claims, names[j], ts[names[j]], kind, until)
  }

  /** The pass has turned the claims of `ts` before `i` into `to`; those from `i` on are still `from`. */
  ghost predicate Passed(
      orig: Claims, claims: Claims, ts: map<string, FencingToken>, names: seq<string>, i: nat, from: Kind, to: Kind,
      until: int)
  {
    && All(claims, ts, names, 0, i, to, until)
    && All(claims, ts, names, i, |names|, from, until)
    && SameElsewhere(claims, orig, ts.Keys)
  }

  lemma PassOne(
      orig: Claims, claims: Claims, claims': Claims, ts: map<string, FencingToken>, names: seq<string>, i: nat,
      from: Kind, to: Kind, until: int)
    requires Distinct(names) && i < |names|
    requires Passed(orig, claims, ts, names, i, from, to, until)
    requires if names[i] in ts
             then
               && names[i] in claims' && claims' == claims[names[i] := claims'[names[i]]]
               && Is(claims', names[i], ts[names[i]], to, until)
             else claims' == claims
    ensures Passed(orig, claims', ts, names, i + 1, from, to, until)
  {
    forall j | 0 <= j < |names| && j != i && names[j] in ts && names[j] in claims
      ensures names[j] in claims' && claims'[names[j]] == claims[names[j]]
    {
    }
  }

  /** `rest` is what `ts` says about the names at positions lo..hi, and about no other name. */
  ghost predicate Part(
      rest: map<string, FencingToken>, ts: map<string, FencingToken>, names: seq<string>, lo: nat, hi: nat) {
    && (forall n | n in rest :: n in ts && rest[n] == ts[n])
    && (forall j :: 0 <= j < |names| ==> (names[j] in rest <==> lo <= j < hi && names[j] in ts))
  }

  lemma PartGrows(rest: map<string, FencingToken>, ts: map<string, FencingToken>, names: seq<string>, i: nat)
    requires Distinct(names) && i < |names| && Part(rest, ts, names, 0, i)
    ensures Part(if names[i] in ts then rest[names[i] := ts[names[i]]] else rest, ts, names, 0, i + 1)
  {
  }

  lemma PartShrinks(rest: map<string, FencingToken>, ts: map<string, FencingToken>, names: seq<string>, i: nat)
    requires Distinct(names) && i < |names| && Part(rest, ts, names, i, |names|)
    ensures Part(rest - {names[i]}, ts, names, i + 1, |names|)
  {
  }

  /** Undoing exactly the part at lo..hi leaves it owned again and all other claims of `ts` as they were. */
  lemma UndoPart(
      mid: Claims, after: Claims, ts: map<string, FencingToken>, rest: map<string, FencingToken>, names: seq<string>,
      lo: nat, hi: nat, others: Kind, from: Kind, to: Kind, until: int)
    requires Distinct(names) && lo <= hi <= |names| && Part(rest, ts, names, lo, hi)
    requires All(mid, ts, names, 0, lo, others, until) && All(mid, ts, names, hi, |names|, others, until)
    requires Passed(mid, after, rest, names, |names|, from, to, until)
    ensures All(after, ts, names, lo, hi, to, until)
    ensures All(after, ts, names, 0, lo, others, until) && All(after, ts, names, hi, |names|, others, until)
    ensures SameElsewhere(after, mid, ts.Keys)
  {
  }

  /** Abort restores what `rest` lists, which is all of `ts` or none of it. */
  lemma UntouchedStay(
      mid: Claims, after: Claims, ts: map<string, FencingToken>, rest: map<string, FencingToken>, names: seq<string>,
      all: bool, kind: Kind, until: int)
    requires All(after, rest, names, 0, |names|, kind, until) && SameElsewhere(after, mid, rest.Keys)
    requires if all then Part(rest, ts, names, 0, |names|)
             else All(mid, ts, names, 0, |names|, kind, until) && forall j :: 0 <= j < |names| ==> names[j] !in rest
    ensures All(after, ts, names, 0, |names|, kind, until)
  {
    forall j | 0 <= j < |names| && names[j] in ts ensures Is(after, names[j], ts[names[j]], kind, until) {
      assert !all ==> Is(mid, names[j], ts[names[j]], kind, until);
    }
  }

  /** The claims of `ts` before `k` have no local lease any more. */
  ghost predicate Disarmed(locals: map<string, L.Fields>, ts: map<string, FencingToken>, names: seq<string>, k: int) {
    forall j :: 0 <= j < k <= |names| && names[j] in ts ==> names[j] in locals && locals[names[j]].lease == None
  }

  ghost predicate LocalsKept(a: map<string, L.Fields>, b: map<string, L.Fields>, except: set<string>) {
    forall n | n in a && n !in except :: n in b && b[n] == a[n]
  }

  lemma DisarmedStays(
      a: map<string, L.Fields>, b: map<string, L.Fields>, ts: map<string, FencingToken>, names: seq<string>, k: nat,
      rest: map<string, FencingToken>)
    requires Distinct(names) && k <= |names| && Disarmed(a, ts, names, k)
    requires Part(rest, ts, names, k, |names|) && LocalsKept(a, b, rest.Keys)
    ensures Disarmed(b, ts, names, k)
  {
  }

  /** The token this process believes it holds a claim under, if any. */
  function LeaseToken(f: L.Fields, gen: string): Option<FencingToken> {
    if f.HasValidLease() then Some(f.leases[f.lease.value].token)
    else if f.record.Controls(gen) then Some(f.record.token)
    else None
  }

  /** The process holds a claim under `tok`, with a lease for its workers unless it is closing. */
  predicate Armed(f: L.Fields, gen: string, tok: FencingToken) {
    LeaseToken(f, gen) == Some(tok) && (f.closed || f.shutdown || f.HasValidLease())
  }

  /**
   This process believes it holds the claims of `ts` at positions lo..hi, under these tokens. Token zero stands for
   none: no granted claim has it.
   */
  ghost predicate Believed(
      locals: map<string, L.Fields>, gen: string, ts: map<string, FencingToken>, names: seq<string>, lo: int, hi: int)
  {
    forall j :: 0 <= lo <= j < hi <= |names| && names[j] in ts && ts[names[j]] != 0 ==>
      names[j] in locals && LeaseToken(locals[names[j]], gen) == Some(ts[names[j]])
  }

  ghost predicate AllArmed(
      locals: map<string, L.Fields>, gen: string, ts: map<string, FencingToken>, names: seq<string>, lo: int, hi: int)
  {
    forall j :: 0 <= lo <= j < hi <= |names| && names[j] in ts && ts[names[j]] != 0 ==>
      names[j] in locals && Armed(locals[names[j]], gen, ts[names[j]])
  }

  /** Every claim of `ts` is held under its token, and is as it was before or armed again. */
  ghost predicate Retained(
      before: map<string, L.Fields>, locals: map<string, L.Fields>, gen: string, ts: map<string, FencingToken>,
      names: seq<string>)
  {
    && Believed(locals, gen, ts, names, 0, |names|)
    && forall j :: 0 <= j < |names| && names[j] in ts && ts[names[j]] != 0 && names[j] in locals ==>
         Armed(locals[names[j]], gen, ts[names[j]]) || (names[j] in before && locals[names[j]] == before[names[j]])
  }

  lemma ReservingKeepsBelief(f: L.Fields, gen: string, tok: FencingToken, rec: ClaimRecord)
    requires LeaseToken(f, gen) == Some(tok) && tok != 0
    requires rec.phase == Reserved && rec.owner == gen && rec.token == tok
    ensures LeaseToken(L.ApplyRecord(f, gen, rec), gen) == Some(tok)
  {
  }

  lemma RestoringArms(f: L.Fields, gen: string, tok: FencingToken, rec: ClaimRecord)
    requires LeaseToken(f, gen) == Some(tok) && tok != 0
    requires rec.phase == Owned && rec.owner == gen && rec.token == tok
    ensures Armed(L.EnsureLocalLease(f.(record := rec), gen), gen, tok)
  {
  }

  /** Undoing the reservations at lo..hi retains everything that was held. */
  lemma UndoingRetains(
      before: map<string, L.Fields>, mid: map<string, L.Fields>, after: map<string, L.Fields>, gen: string,
      ts: map<string, FencingToken>, rest: map<string, FencingToken>, names: seq<string>, i: nat)
    requires i <= |names| && Part(rest, ts, names, 0, i) && Believed(mid, gen, ts, names, i, |names|)
    requires AllArmed(after, gen, rest, names, 0, |names|) && LocalsKept(mid, after, rest.Keys)
    requires forall j :: i <= j < |names| && names[j] in before ==> names[j] in mid && mid[names[j]] == before[names[j]]
    requires forall j :: 0 <= j < |names| ==> names[j] in before
    ensures Retained(before, after, gen, ts, names)
  {
  }

  /** No operation id of this coordinator is used ahead of its counter. */
  ghost predicate UnusedIDs(gen: string, opSeq: nat, ops: map<string, Reply>) {
    forall n, kind, claim :: n > opSeq ==> OperationID(gen, kind, claim, n) !in ops
  }

  lemma StillUnused(
      gen: string, opSeq: nat, before: map<string, Reply>, after: map<string, Reply>, op: string, kind: string,
      claim: string)
    requires op == OperationID(gen, kind, claim, opSeq)
    requires after.Keys <= before.Keys + {op} && UnusedIDs(gen, opSeq, before)
    ensures UnusedIDs(gen, opSeq, after)
  {
    forall m, k, c | m > opSeq ensures OperationID(gen, k, c, m) !in after {
      OperationIDsDiffer(gen, k, c, m, gen, kind, claim, opSeq);
    }
  }

  class Handoff {
    const gen: string
    const backend: Backend
    const names: seq<string>

    /** What the clock reads for the backend call with a given number. */
    const clock: nat -> int

    var locals: map<string, L.Fields>
    var opSeq: nat
    var status: Status
    var successor: string
    var drainDone: bool
    var transferDone: bool
    var tokens: map<string, FencingToken>

    constructor (
        gen: string, backend: Backend, names: seq<string>, clock: nat -> int, locals: map<string, L.Fields>, opSeq: nat)
      ensures this.gen == gen && this.backend == backend && this.names == names && this.locals == locals
      ensures this.clock == clock && this.opSeq == opSeq
      ensures status == Pending && !transferDone && !drainDone && tokens == map[]
    {
      this.gen, this.backend, this.names, this.clock := gen, backend, names, clock;
      this.locals, this.opSeq := locals, opSeq;
      status, successor, drainDone, transferDone, tokens := Pending, "", false, false, map[];
    }

    /** Distinct claims, and no operation id of this coordinator used ahead of its counter. */
    ghost predicate Valid()
      reads this`locals, this`opSeq, backend`ops
    {
      && Distinct(names)
      && (forall j :: 0 <= j < |names| ==> names[j] in locals)
      && UnusedIDs(gen, opSeq, backend.ops)
    }

    /** All clock readings lie between `start` and `until`. */
    ghost predicate InTime(start: int, until: int) {
      forall m :: start <= clock(m) <= until
    }

    /** No claim of this handoff is recorded as reserved. */
    ghost predicate NoneLeft()
      reads this`tokens
    {
      forall j :: 0 <= j < |names| ==> names[j] !in tokens
    }

    /** From position `i` on, `hs` tells which claims this process holds, and under which tokens. */
    ghost predicate Untried(i: int, hs: map<string, FencingToken>)
      reads this`locals
    {
      forall j :: 0 <= i <= j < |names| ==>
        && names[j] in locals
        && LeaseToken(locals[names[j]], gen) == if names[j] in hs then Some(hs[names[j]]) else None
    }

    method NewOpID(kind: string, claim: string) returns (id: string)
      requires Valid()
      modifies this`opSeq
      ensures opSeq == old(opSeq) + 1 && id == OperationID(gen, kind, claim, opSeq) && id !in backend.ops
    {
      opSeq := opSeq + 1;
      id := OperationID(gen, kind, claim, opSeq);
    }

    /** One PrepareTransfer call; `faulty` calls fail before the backend does anything. */
    method Reserve(n: string, tok: FencingToken, ttl: int, faulty: bool, ghost until: int)
      returns (rec: Option<ClaimRecord>, ok: bool)
      requires Valid() && OwnedIn(backend.claims, n, gen, tok, until)
      requires clock(opSeq + 1) <= until <= clock(opSeq + 1) + ttl
      modifies this`opSeq, backend
      ensures Valid() && opSeq == old(opSeq) + 1
      ensures ok <==> !faulty
      ensures if faulty then backend.State() == old(backend.State())
              else
                && n in backend.claims && backend.claims == old(backend.claims)[n := backend.claims[n]]
                && rec == Some(backend.claims[n]) && ReservedIn(backend.claims, n, gen, successor, tok, until)
    {
      var op := NewOpID("prepare", n);
      if faulty {
        return None, false;
      }
      ghost var before := backend.State();
      PrepareReserves(before, n, gen, successor, tok, ttl, op, clock(opSeq), until);
      var err;
      rec, err := backend.PrepareTransfer(n, gen, successor, tok, ttl, op, clock(opSeq));
      StillUnused(gen, opSeq, before.ops, backend.ops, op, "prepare", n);
      ok := err == Ok;
    }

    /** One CommitTransfer call. A claim whose token is exhausted cannot be committed. */
    method Hand(n: string, tok: FencingToken, ttl: int, faulty: bool, ghost until: int)
      returns (rec: Option<ClaimRecord>, ok: bool)
      requires Valid() && ReservedIn(backend.claims, n, gen, successor, tok, until) && clock(opSeq + 1) <= until
      modifies this`opSeq, backend
      ensures Valid() && opSeq == old(opSeq) + 1
      ensures ok <==> !faulty && tok < MAX_SAFE_TOKEN
      ensures n in backend.claims && backend.claims == old(backend.claims)[n := backend.claims[n]]
      ensures if ok then
                rec == Some(backend.claims[n]) && OwnedIn(backend.claims, n, successor, tok + 1, clock(opSeq) + ttl)
              else backend.claims[n] == old(backend.claims)[n]
    {
      var op := NewOpID("commit", n);
      if faulty {
        return None, false;
      }
      ghost var before := backend.State();
      CommitTransfers(before, n, gen, successor, tok, ttl, op, clock(opSeq), until);
      var err;
      rec, err := backend.CommitTransfer(n, gen, successor, tok, ttl, op, clock(opSeq));
      StillUnused(gen, opSeq, before.ops, backend.ops, op, "commit", n);
      ok := err == Ok;
    }

    /** One AbortTransfer call, after which the local lease is armed again. */
    method Undo(n: string, tok: FencingToken, kind: string, ghost until: int)
      requires Valid() && n in locals && ReservedIn(backend.claims, n, gen, successor, tok, until)
      requires clock(opSeq + 1) <= until && (tok != 0 ==> LeaseToken(locals[n], gen) == Some(tok))
      modifies this`opSeq, this`locals, backend
      ensures Valid() && n in backend.claims && backend.claims == old(backend.claims)[n := backend.claims[n]]
      ensures OwnedIn(backend.claims, n, gen, tok, until)
      ensures n in old(locals)
      ensures locals == old(locals)[n := L.EnsureLocalLease(old(locals)[n].(record := backend.claims[n]), gen)]
      ensures tok != 0 ==> Armed(locals[n], gen, tok)
    {
      var op := NewOpID(kind, n);
      ghost var before := backend.State();
      AbortRestores(before, n, gen, successor, tok, op, clock(opSeq), until);
      var rec, err := backend.AbortTransfer(n, gen, successor, tok, op, clock(opSeq));
      StillUnused(gen, opSeq, before.ops, backend.ops, op, kind, n);
      if tok != 0 {
        RestoringArms(locals[n], gen, tok, rec.value);
      }
      var f := locals[n].(record := rec.value);
      locals := locals[n := L.EnsureLocalLease(f, gen)];
    }

    /** Undo the reservation of the claim at position `i`, if it is among those in `ts`. */
    method UndoNext(
        i: nat, ts: map<string, FencingToken>, kind: string, ghost orig: Claims, ghost locals0: map<string, L.Fields>,
        ghost start: int, ghost until: int)
      requires Valid() && InTime(start, until) && i < |names| && LocalsKept(locals0, locals, ts.Keys)
      requires Passed(orig, backend.claims, ts, names, i, Booked(gen, successor), Mine(gen), until)
      requires AllArmed(locals, gen, ts, names, 0, i) && Believed(locals, gen, ts, names, i, |names|)
      modifies this`opSeq, this`locals, backend
      ensures Valid() && LocalsKept(locals0, locals, ts.Keys)
      ensures Passed(orig, backend.claims, ts, names, i + 1, Booked(gen, successor), Mine(gen), until)
      ensures AllArmed(locals, gen, ts, names, 0, i + 1) && Believed(locals, gen, ts, names, i + 1, |names|)
    {
      var n := names[i];
      ghost var before := backend.claims;
      if n in ts {
        Undo(n, ts[n], kind, until);
      }
      PassOne(orig, before, backend.claims, ts, names, i, Booked(gen, successor), Mine(gen), until);
    }

    /** Undo the reservations in `ts`, in claim order, forgetting each as it goes. */
    method AbortTokens(ts: map<string, FencingToken>, ghost start: int, ghost until: int)
      requires Valid() && InTime(start, until) && Believed(locals, gen, ts, names, 0, |names|)
      requires All(backend.claims, ts, names, 0, |names|, Booked(gen, successor), until)
      modifies this`opSeq, this`locals, this`tokens, backend
      ensures Valid() && AllArmed(locals, gen, ts, names, 0, |names|)
      ensures Passed(old(backend.claims), backend.claims, ts, names, |names|, Booked(gen, successor), Mine(gen), until)
      ensures forall n | n in tokens :: n in old(tokens) && tokens[n] == old(tokens)[n]
      ensures forall j :: 0 <= j < |names| && names[j] in ts ==> names[j] !in tokens
      ensures LocalsKept(old(locals), locals, ts.Keys)
    {
      var i := 0;
      while i < |names|
        invariant 0 <= i <= |names| && Valid()
        invariant Passed(old(backend.claims), backend.claims, ts, names, i, Booked(gen, successor), Mine(gen), until)
        invariant forall n | n in tokens :: n in old(tokens) && tokens[n] == old(tokens)[n]
        invariant forall j :: 0 <= j < i && names[j] in ts ==> names[j] !in tokens
        invariant LocalsKept(old(locals), locals, ts.Keys)
        invariant AllArmed(locals, gen, ts, names, 0, i) && Believed(locals, gen, ts, names, i, |names|)
      {
        UndoNext(i, ts, "abort-compensate", old(backend.claims), old(locals), start, until);
        if names[i] in ts {
          tokens := tokens - {names[i]};
        }
        i := i + 1;
      }
    }

    /** Reserve the claim at position `i`, if this process holds it. */
    method ReserveNext(
        i: nat, ttl: int, faulty: bool, ghost hs: map<string, FencingToken>, ghost orig: Claims, ghost start: int,
        ghost until: int)
      returns (ok: bool)
      requires Valid() && InTime(start, until) && until <= start + ttl && i < |names|
      requires Untried(i, hs) && Part(tokens, hs, names, 0, i) && Believed(locals, gen, hs, names, 0, i)
      requires Passed(orig, backend.claims, hs, names, i, Mine(gen), Booked(gen, successor), until)
      modifies this`opSeq, this`locals, this`tokens, backend
      ensures Valid()
      ensures ok <==> !(faulty && names[i] in hs)
      ensures if ok then
                && Untried(i + 1, hs) && Part(tokens, hs, names, 0, i + 1) && Believed(locals, gen, hs, names, 0, i + 1)
                && Passed(orig, backend.claims, hs, names, i + 1, Mine(gen), Booked(gen, successor), until)
              else backend.claims == old(backend.claims) && tokens == old(tokens) && locals == old(locals)
      ensures LocalsKept(old(locals), locals, {names[i]})
    {
      var n := names[i];
      ghost var before := backend.claims;
      PartGrows(tokens, hs, names, i);
      var token := LeaseToken(locals[n], gen);
      if token.Some? {
        var rec, reserved := Reserve(n, token.value, ttl, faulty, until);
        if !reserved {
          return false;
        }
        if token.value != 0 {
          ReservingKeepsBelief(locals[n], gen, token.value, rec.value);
        }
        locals := locals[n := L.ApplyRecord(locals[n], gen, rec.value)];
        tokens := tokens[n := rec.value.token];
      }
      PassOne(orig, before, backend.claims, hs, names, i, Mine(gen), Booked(gen, successor), until);
      return true;
    }

    /** Undo everything recorded in `tokens`: the part of `ts` at positions lo..hi. */
    method AbortPart(
        ghost ts: map<string, FencingToken>, ghost lo: nat, ghost hi: nat, ghost others: Kind, ghost start: int,
        ghost until: int)
      requires Valid() && InTime(start, until) && lo <= hi <= |names| && Part(tokens, ts, names, lo, hi)
      requires Believed(locals, gen, tokens, names, 0, |names|)
      requires All(backend.claims, ts, names, 0, lo, others, until)
      requires All(backend.claims, ts, names, hi, |names|, others, until)
      requires All(backend.claims, ts, names, lo, hi, Booked(gen, successor), until)
      modifies this`opSeq, this`locals, this`tokens, backend
      ensures Valid() && NoneLeft() && tokens.Keys <= old(tokens).Keys
      ensures All(backend.claims, ts, names, lo, hi, Mine(gen), until)
      ensures All(backend.claims, ts, names, 0, lo, others, until)
      ensures All(backend.claims, ts, names, hi, |names|, others, until)
      ensures SameElsewhere(backend.claims, old(backend.claims), ts.Keys)
      ensures LocalsKept(old(locals), locals, old(tokens).Keys) && AllArmed(locals, gen, old(tokens), names, 0, |names|)
    {
      ghost var mid, rest := backend.claims, tokens;
      AbortTokens(tokens, start, until);
      UndoPart(mid, backend.claims, ts, rest, names, lo, hi, others, Booked(gen, successor), Mine(gen), until);
    }

    /**
     Reserve the held claims one by one. If call number `fault` fails, the reservations already made
     are undone.
     */
    method ReserveAll(ttl: int, fault: int, ghost hs: map<string, FencingToken>, ghost start: int, ghost until: int)
      returns (ok: bool)
      requires Valid() && InTime(start, until) && until <= start + ttl && tokens == map[] && Untried(0, hs)
      requires All(backend.claims, hs, names, 0, |names|, Mine(gen), until)
      modifies this`opSeq, this`locals, this`tokens, this`status, backend
      ensures Valid() && SameElsewhere(backend.claims, old(backend.claims), hs.Keys)
      ensures ok <==> !(0 <= fault < |names| && names[fault] in hs)
      ensures if ok then Part(tokens, hs, names, 0, |names|) else NoneLeft() && tokens.Keys <= hs.Keys
      ensures status == if ok then old(status) else Failed
      ensures ok ==> All(backend.claims, hs, names, 0, |names|, Booked(gen, successor), until)
      ensures !ok ==> All(backend.claims, hs, names, 0, |names|, Mine(gen), until)
      ensures if ok then Believed(locals, gen, hs, names, 0, |names|) else Retained(old(locals), locals, gen, hs, names)
    {
      var i := 0;
      while i < |names|
        invariant 0 <= i <= |names| && Valid() && status == old(status)
        invariant !(0 <= fault < i && names[fault] in hs)
        invariant Untried(i, hs) && Part(tokens, hs, names, 0, i) && Believed(locals, gen, hs, names, 0, i)
        invariant forall j :: i <= j < |names| ==> locals[names[j]] == old(locals)[names[j]]
        invariant Passed(old(backend.claims), backend.claims, hs, names, i, Mine(gen), Booked(gen, successor), until)
      {
        var reserved := ReserveNext(i, ttl, i == fault, hs, old(backend.claims), start, until);
        if !reserved {
          status := Failed;
          ghost var mid, rest := locals, tokens;
          AbortPart(hs, 0, i, Mine(gen), start, until);
          UndoingRetains(old(locals), mid, locals, gen, hs, rest, names, i);
          return false;
        }
        i := i + 1;
      }
      return true;
    }

    /** Hand over the claim at position `i`, if it is among those reserved. */
    method HandNext(
        i: nat, ts: map<string, FencingToken>, ttl: int, faulty: bool, ghost orig: Claims, ghost start: int,
        ghost until: int)
      returns (ok: bool)
      requires Valid() && InTime(start, until) && i < |names| && Part(tokens, ts, names, i, |names|)
      requires Believed(locals, gen, ts, names, i, |names|)
      requires Passed(orig, backend.claims, ts, names, i, Booked(gen, successor), Theirs(successor, start + ttl), until)
      modifies this`opSeq, this`locals, this`tokens, backend
      ensures Valid()
      ensures ok <==> !(names[i] in ts && (faulty || ts[names[i]] >= MAX_SAFE_TOKEN))
      ensures Disarmed(old(locals), ts, names, i) ==> Disarmed(locals, ts, names, if ok then i + 1 else i)
      ensures if ok then
                && Part(tokens, ts, names, i + 1, |names|) && Believed(locals, gen, ts, names, i + 1, |names|)
                && Passed(
                     orig, backend.claims, ts, names, i + 1, Booked(gen, successor), Theirs(successor, start + ttl),
                     until)
              else backend.claims == old(backend.claims) && tokens == old(tokens) && locals == old(locals)
    {
      var n := names[i];
      ghost var before := backend.claims;
      if n in ts {
        var rec, handed := Hand(n, ts[n], ttl, faulty, until);
        if !handed {
          assert backend.claims == before;
          return false;
        }
        locals := locals[n := L.ApplyRecord(locals[n], gen, rec.value).Dropped()];
      }
      PassOne(
        orig, before, backend.claims, ts, names, i, Booked(gen, successor), Theirs(successor, start + ttl), until);
      PartShrinks(tokens, ts, names, i);
      tokens := tokens - {n};
      return true;
    }

    /**
     Hand the reserved claims over one by one. `k` is the failure point: call number `fault`, or the
     first claim whose token is exhausted, or the end.
     */
    method HandAll(ttl: int, fault: int, ghost start: int, ghost until: int) returns (ok: bool, ghost k: nat)
      requires Valid() && InTime(start, until) && Believed(locals, gen, tokens, names, 0, |names|)
      requires All(backend.claims, tokens, names, 0, |names|, Booked(gen, successor), until)
      modifies this`opSeq, this`locals, this`tokens, this`status, backend
      ensures Valid() && k <= |names| && (ok <==> k == |names|)
      ensures SameElsewhere(backend.claims, old(backend.claims), old(tokens).Keys)
      ensures !ok ==> names[k] in old(tokens) && (k == fault || old(tokens)[names[k]] >= MAX_SAFE_TOKEN)
      ensures !(0 <= fault < k && names[fault] in old(tokens))
      ensures Disarmed(locals, old(tokens), names, k) && AllArmed(locals, gen, old(tokens), names, k, |names|)
      ensures All(backend.claims, old(tokens), names, 0, k, Theirs(successor, start + ttl), until)
      ensures All(backend.claims, old(tokens), names, k, |names|, Mine(gen), until)
      ensures NoneLeft() && status == if ok then old(status) else Failed
    {
      var ts := tokens;
      var i := 0;
      while i < |names|
        invariant 0 <= i <= |names| && Valid() && status == old(status)
        invariant Part(tokens, ts, names, i, |names|) && Believed(locals, gen, ts, names, i, |names|)
        invariant Passed(
                    old(backend.claims), backend.claims, ts, names, i, Booked(gen, successor),
                    Theirs(successor, start + ttl), until)
        invariant !(0 <= fault < i && names[fault] in ts) && Disarmed(locals, ts, names, i)
      {
        var handed := HandNext(i, ts, ttl, i == fault, old(backend.claims), start, until);
        if !handed {
          status := Failed;
          ghost var before, rest := locals, tokens;
          AbortPart(ts, i, |names|, Theirs(successor, start + ttl), start, until);
          DisarmedStays(before, locals, ts, names, i, rest);
          return false, i;
        }
        i := i + 1;
      }
      return true, i;
    }

    /** What Transfer demands before it turns to the claims: a successor, an open handoff, and a finished drain. */
    method BeginTransfer(next: string, drained: bool) returns (r: Outcome)
      modifies this`status, this`drainDone, this`successor
      ensures r == Fine <==>
                next != "" && old(status != CommittedAll && status != AbortedAll) && (old(drainDone) || drained)
      ensures r == Fine ==> status == Transferring && successor == next
      ensures status == CommittedAll ==> old(status) == CommittedAll
    {
      if next == "" {
        return Policy;
      }
      if status == CommittedAll || status == AbortedAll {
        return InvalidState;
      }
      if !drainDone {
        status := DrainStarted;
        if !drained {
          status := Failed;
          return DrainFailed;
        }
        drainDone := true;
      }
      status := Transferring;
      successor := next;
      return Fine;
    }

    /** Reserve every held claim for `next`, or leave every claim with its owner. */
    method Transfer(
        next: string, drained: bool, ttl: int, fault: int, ghost hs: map<string, FencingToken>, ghost start: int,
        ghost until: int)
      returns (r: Outcome)
      requires Valid() && InTime(start, until) && until <= start + ttl && Untried(0, hs) && NoneLeft()
      requires All(backend.claims, hs, names, 0, |names|, Mine(gen), until)
      modifies this, backend
      ensures Valid() && SameElsewhere(backend.claims, old(backend.claims), hs.Keys)
      ensures r == Fine ==>
                && transferDone && status == Transferring && successor == next
                && Part(tokens, hs, names, 0, |names|) && Believed(locals, gen, hs, names, 0, |names|)
                && All(backend.claims, hs, names, 0, |names|, Booked(gen, next), until)
      ensures r != Fine ==>
                && transferDone == old(transferDone) && NoneLeft() && tokens.Keys <= old(tokens).Keys + hs.Keys
                && All(backend.claims, hs, names, 0, |names|, Mine(gen), until)
                && Retained(old(locals), locals, gen, hs, names)
      ensures r != Fine && old(status != CommittedAll) ==> status != CommittedAll
      ensures r == Fine <==>
                && next != "" && old(status != CommittedAll && status != AbortedAll) && (old(drainDone) || drained)
                && !(0 <= fault < |names| && names[fault] in hs)
    {
      r := BeginTransfer(next, drained);
      if r != Fine {
        return;
      }
      tokens := map[];
      var ok := ReserveAll(ttl, fault, hs, start, until);
      if !ok {
        return BackendFailed;
      }
      transferDone := true;
      return Fine;
    }

    /** Hand every reserved claim to the successor, up to the failure point `k`. */
    method Commit(ttl: int, fault: int, ghost start: int, ghost until: int) returns (r: Outcome, ghost k: nat)
      requires Valid() && InTime(start, until) && Believed(locals, gen, tokens, names, 0, |names|)
      requires All(backend.claims, tokens, names, 0, |names|, Booked(gen, successor), until)
      modifies this, backend
      ensures Valid() && k <= |names| && SameElsewhere(backend.claims, old(backend.claims), old(tokens).Keys)
      ensures if old(transferDone && status != CommittedAll && status != AbortedAll) then
                && (r == Fine <==> k == |names|)
                && (r != Fine ==> names[k] in old(tokens) && (k == fault || old(tokens)[names[k]] >= MAX_SAFE_TOKEN))
                && !(0 <= fault < k && names[fault] in old(tokens))
                && All(backend.claims, old(tokens), names, 0, k, Theirs(old(successor), start + ttl), until)
                && All(backend.claims, old(tokens), names, k, |names|, Mine(gen), until)
                && Disarmed(locals, old(tokens), names, k) && AllArmed(locals, gen, old(tokens), names, k, |names|)
                && status == if r == Fine then CommittedAll else Failed
              else
                && backend.State() == old(backend.State()) && locals == old(locals)
                && k == 0 && (r == Fine <==> old(transferDone && status == CommittedAll))
                && (!old(transferDone) ==> r == NoTransferYet)
    {
      k := 0;
      if !transferDone {
        return NoTransferYet, k;
      }
      if status == CommittedAll {
        return Fine, k;
      }
      if status == AbortedAll {
        return AlreadyAborted, k;
      }
      var ok;
      ok, k := HandAll(ttl, fault, start, until);
      if !ok {
        return BackendFailed, k;
      }
      status := CommittedAll;
      return Fine, k;
    }

    /** Cancel the transfer: every reserved claim is back with its owner at the same token. */
    method Abort(ghost start: int, ghost until: int) returns (r: Outcome)
      requires Valid() && InTime(start, until)
      requires status != CommittedAll ==>
                 && All(backend.claims, tokens, names, 0, |names|, Booked(gen, successor), until)
                 && Believed(locals, gen, tokens, names, 0, |names|)
      modifies this, backend
      ensures Valid() && SameElsewhere(backend.claims, old(backend.claims), tokens.Keys) && tokens == old(tokens)
      ensures if old(status) == CommittedAll then r == InvalidState && backend.State() == old(backend.State())
              else
                && r == Fine && status == AbortedAll && All(backend.claims, tokens, names, 0, |names|, Mine(gen), until)
                && AllArmed(locals, gen, tokens, names, 0, |names|)
      ensures LocalsKept(old(locals), locals, tokens.Keys)
    {
      if status == CommittedAll {
        return InvalidState;
      }
      var ts := tokens;
      status := AbortedAll;
      var i := 0;
      while i < |names|
        invariant 0 <= i <= |names| && Valid() && successor == old(successor) && status == AbortedAll && tokens == ts
        invariant Passed(old(backend.claims), backend.claims, ts, names, i, Booked(gen, successor), Mine(gen), until)
        invariant AllArmed(locals, gen, ts, names, 0, i) && Believed(locals, gen, ts, names, i, |names|)
        invariant LocalsKept(old(locals), locals, ts.Keys)
      {
        UndoNext(i, ts, "abort", old(backend.claims), old(locals), start, until);
        i := i + 1;
      }
      return Fine;
    }

    /**
     A whole handoff: Transfer, then Commit or Abort whether or not that succeeded. One prepare and one commit may
     fail, and no lease runs out. Every held claim ends up with the successor one token further (before the failure
     point `k`) or with this generation at the same token; none stays reserved, and no other claim is touched. The
     workers' leases agree: this process has none for a claim it handed over, and one at the same token for every claim
     it has reserved and got back.
     */
    method HandOver(
        next: string, drained: bool, commit: bool, reserveTTL: int, leaseTTL: int, prepareFault: int, commitFault: int,
        ghost hs: map<string, FencingToken>, ghost start: int, ghost until: int)
      returns (r: Outcome, ghost k: nat)
      requires Valid() && status == Pending && !transferDone && !drainDone && tokens == map[] && Untried(0, hs)
      requires InTime(start, until) && until <= start + reserveTTL
      requires All(backend.claims, hs, names, 0, |names|, Mine(gen), until)
      modifies this, backend
      ensures k <= |names| && SameElsewhere(backend.claims, old(backend.claims), hs.Keys)
      ensures All(backend.claims, hs, names, 0, k, Theirs(next, start + leaseTTL), until)
      ensures All(backend.claims, hs, names, k, |names|, Mine(gen), until)
      ensures Disarmed(locals, hs, names, k) && Believed(locals, gen, hs, names, k, |names|)
      ensures var transferred := next != "" && drained && !(0 <= prepareFault < |names| && names[prepareFault] in hs);
              && (if transferred then AllArmed(locals, gen, hs, names, k, |names|)
                  else Retained(old(locals), locals, gen, hs, names))
              && (!commit ==> r == Fine && k == 0)
              && (commit && !transferred ==> r == NoTransferYet && k == 0)
              && (commit && transferred ==>
                    && (r == Fine <==> k == |names|)
                    && (k < |names| ==> names[k] in hs && (k == commitFault || hs[names[k]] >= MAX_SAFE_TOKEN))
                    && !(0 <= commitFault < k && names[commitFault] in hs))
    {
      k := 0;
      var transferred := Transfer(next, drained, reserveTTL, prepareFault, hs, start, until);
      ghost var claims := backend.claims;
      if commit {
        r, k := Commit(leaseTTL, commitFault, start, until);
      } else {
        r := Abort(start, until);
        UntouchedStay(claims, backend.claims, hs, tokens, names, transferred == Fine, Mine(gen), until);
      }
    }
  }
}
