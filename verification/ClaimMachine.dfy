/**
 The abstract claim machine: what every ownership backend does to one claim, seen through its
 owner, fencing token, phase and pending successor. Lease expiry is a step of its own.
 */
module ClaimMachine {
  import opened ClaimRecords

  datatype Claim = Claim(owner: string, token: FencingToken, phase: Phase, successor: string)
  {
    predicate Live() {
      phase != Unowned
    }

    predicate HeldBy(gen: string, tok: FencingToken) {
      Live() && owner == gen && token == tok
    }

    predicate ReservedFor(gen: string, next: string, tok: FencingToken) {
      phase == Reserved && owner == gen && successor == next && token == tok
    }

    /** A claim has an owner exactly while it is live, and a successor exactly while reserved. */
    predicate WellFormed() {
      && (Live() <==> owner != "")
      && (Live() ==> token != 0)
      && (phase == Reserved <==> successor != "")
    }
  }

  const INITIAL := Claim("", 0, Unowned, "")

  datatype Action =
    | AcquireAs(gen: string)
    | PrepareTo(gen: string, next: string, tok: FencingToken)
    | CommitTo(gen: string, next: string, tok: FencingToken)
    | AbortBy(gen: string, tok: FencingToken)
    | ReleaseBy(gen: string, tok: FencingToken)

  predicate Enabled(c: Claim, a: Action) {
    match a
    case AcquireAs(g) => !c.Live() && g != "" && c.token < MAX_SAFE_TOKEN
    case PrepareTo(g, s, t) => c.HeldBy(g, t) && c.phase != Reserved && s != ""
    case CommitTo(g, s, t) => c.ReservedFor(g, s, t) && t < MAX_SAFE_TOKEN
    case AbortBy(g, t) => c.HeldBy(g, t) && c.phase == Reserved
    case ReleaseBy(g, t) => c.HeldBy(g, t)
  }

  function Do(c: Claim, a: Action): Claim
    requires Enabled(c, a)
  {
    match a
    case AcquireAs(g) => Claim(g, c.token + 1, Owned, "")
    case PrepareTo(_, s, _) => Claim(c.owner, c.token, Reserved, s)
    case CommitTo(_, s, _) => Claim(s, c.token + 1, Owned, "")
    case AbortBy(_, _) => Claim(c.owner, c.token, Owned, "")
    case ReleaseBy(_, _) => Claim("", c.token, Unowned, "")
  }

  /** A live claim whose lease ran out loses its owner and keeps its token. */
  function Expire(c: Claim): Claim {
    Claim("", c.token, Unowned, "")
  }

  /** One step: the lease may expire, then one action may happen. With neither, it stutters. */
  datatype Label = Label(expired: bool, act: Option<Action>)

  predicate Step(c: Claim, l: Label, c': Claim) {
    && (l.expired ==> c.Live())
    && var mid := if l.expired then Expire(c) else c;
       if l.act.None? then c' == mid else Enabled(mid, l.act.value) && c' == Do(mid, l.act.value)
  }

  /** A run from the initial claim: `ls[i]` labels the step from `cs[i]` to `cs[i + 1]`. */
  ghost predicate Run(cs: seq<Claim>, ls: seq<Label>) {
    && |cs| == |ls| + 1
    && cs[0] == INITIAL
    && forall i :: 0 <= i < |ls| ==> Step(cs[i], ls[i], cs[i + 1])
  }

  lemma StepKeepsWellFormed(c: Claim, l: Label, c': Claim)
    requires c.WellFormed() && Step(c, l, c')
    ensures c'.WellFormed()
    ensures c.token <= c'.token <= c.token + 1
    ensures c'.Live() && c'.token == c.token ==> c.Live() && c'.owner == c.owner
  {
  }

  /** In every run states stay well formed and the token never decreases. */
  lemma {:induction false} TokensNeverDecrease(cs: seq<Claim>, ls: seq<Label>, i: nat, j: nat)
    requires Run(cs, ls) && i <= j < |cs|
    ensures cs[i].WellFormed() && cs[j].WellFormed()
    ensures cs[i].token <= cs[j].token
    decreases j
  {
    if j > 0 {
      TokensNeverDecrease(cs, ls, if i == j then j - 1 else i, j - 1);
      assert Step(cs[j - 1], ls[j - 1], cs[j]);
      StepKeepsWellFormed(cs[j - 1], ls[j - 1], cs[j]);
    }
  }

  /** Over a whole run each token is held by at most one generation. */
  lemma {:induction false} OneHolderPerToken(cs: seq<Claim>, ls: seq<Label>, i: nat, j: nat)
    requires Run(cs, ls) && i <= j < |cs|
    requires cs[i].Live() && cs[j].Live() && cs[i].token == cs[j].token
    ensures cs[i].owner == cs[j].owner
    decreases j
  {
    if i < j {
      TokensNeverDecrease(cs, ls, i, j - 1);
      TokensNeverDecrease(cs, ls, j - 1, j);
      assert Step(cs[j - 1], ls[j - 1], cs[j]);
      StepKeepsWellFormed(cs[j - 1], ls[j - 1], cs[j]);
      OneHolderPerToken(cs, ls, i, j - 1);
    }
  }

  /** Step `p` prepared the transfer (g, s, t), and it stayed prepared up to state `k`. */
  ghost predicate PreparedAt(cs: seq<Claim>, ls: seq<Label>, p: nat, k: nat, g: string, s: string, t: FencingToken)
    requires |cs| == |ls| + 1 && k < |cs|
  {
    && p < k
    && ls[p].act == Some(PrepareTo(g, s, t))
    && forall q :: p < q <= k ==> cs[q].ReservedFor(g, s, t)
  }

  /** A reserved claim was prepared by its owner, and not aborted since. */
  lemma {:induction false} ReservationWasPrepared(
      cs: seq<Claim>, ls: seq<Label>, k: nat, g: string, s: string, t: FencingToken)
    requires Run(cs, ls) && k < |cs| && cs[k].ReservedFor(g, s, t)
    ensures exists p: nat :: PreparedAt(cs, ls, p, k, g, s, t)
    decreases k
  {
    TokensNeverDecrease(cs, ls, k - 1, k);
    assert Step(cs[k - 1], ls[k - 1], cs[k]);
    if ls[k - 1].act == Some(PrepareTo(g, s, t)) {
      assert PreparedAt(cs, ls, k - 1, k, g, s, t);
    } else {
      ReservationWasPrepared(cs, ls, k - 1, g, s, t);
      var p: nat :| PreparedAt(cs, ls, p, k - 1, g, s, t);
      assert PreparedAt(cs, ls, p, k, g, s, t);
    }
  }

  /** Step `k` ends the epoch (g, t) in one of the three legal ways. */
  ghost predicate EndsEpoch(cs: seq<Claim>, ls: seq<Label>, k: nat, g: string, t: FencingToken)
    requires |cs| == |ls| + 1 && k < |ls|
  {
    && cs[k].HeldBy(g, t) && !cs[k + 1].HeldBy(g, t)
    && (|| ls[k].expired
        || ls[k].act == Some(ReleaseBy(g, t))
        || (exists s: string, p: nat ::
              PreparedAt(cs, ls, p, k, g, s, t) && ls[k].act == Some(CommitTo(g, s, t))))
  }

  /**
   A live epoch ends only by expiry, by a release naming it, or by a commit that follows a prepare
   naming it with no abort in between.
   */
  lemma {:induction false} EpochEndsOnlyBy(cs: seq<Claim>, ls: seq<Label>, i: nat, j: nat, g: string, t: FencingToken)
    requires Run(cs, ls) && i < j < |cs|
    requires cs[i].HeldBy(g, t) && !cs[j].HeldBy(g, t)
    ensures exists k :: i <= k < j && EndsEpoch(cs, ls, k, g, t)
    decreases j
  {
    if cs[j - 1].HeldBy(g, t) {
      var k := j - 1;
      assert Step(cs[k], ls[k], cs[k + 1]);
      if !ls[k].expired && ls[k].act.Some? && ls[k].act.value.CommitTo? {
        ReservationWasPrepared(cs, ls, k, g, ls[k].act.value.next, t);
      }
      assert EndsEpoch(cs, ls, k, g, t);
    } else {
      EpochEndsOnlyBy(cs, ls, i, j - 1, g, t);
    }
  }
}
