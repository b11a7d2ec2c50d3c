/** The hash-chained audit log: appending, verifying, and what a tip hash pins down. */
module AuditLog {
  import opened Names
  import opened ClaimRecords

  /** A 32-byte digest, read as a number. */
  type Digest = nat

  const ZERO_DIGEST: Digest := 0
  const ZERO_TIME := 0

  /** The largest length of a list. */
  const MAX_LENGTH: nat := 0x7fff_ffff_ffff_ffff

  datatype Actor = Actor(id: string, kind: string)

  /** The fields that go into a record's hash. */
  datatype Body = Body(sequence: nat, previous: Digest, time: int, actor: Actor, action: string, resource: string,
                       result: string, operationID: string, metadata: map<string, string>)

  datatype Record = Record(body: Body, hash: Digest, signature: string, keyID: string)

  /** Hashing a body, which fails when the body cannot be encoded. */
  type Hash = Body -> Option<Digest>

  /** Signing a digest: the signature and the key's name, or a failure. */
  type Signer = Digest -> Option<(string, string)>

  datatype SignatureCheck = Accepts | UnknownKey | Invalid

  /** Checking a record's signature against the key ring. */
  type Checker = Record -> SignatureCheck

  function Next(sequence: nat): nat {
    (sequence + 1) % 0x1_0000_0000_0000_0000
  }

  // ---------- appending ----------

  /** What a caller appends, with the clock reading of that moment. */
  datatype Entry = Entry(time: int, actor: Actor, action: string, resource: string, result: string,
                         operationID: string, metadata: map<string, string>)

  datatype AppendResult = Appended(record: Record) | DuplicateOperation | HashFailed | SigningFailed

  function LastHash(records: seq<Record>): Digest {
    if records == [] then ZERO_DIGEST else records[|records| - 1].hash
  }

  function NextSequence(records: seq<Record>): nat {
    if records == [] then 1 else Next(records[|records| - 1].body.sequence)
  }

  function BodyFor(records: seq<Record>, e: Entry): Body {
    Body(NextSequence(records), LastHash(records), e.time, e.actor, e.action, e.resource, e.result, e.operationID,
         e.metadata)
  }

  /** Some record carries this operation identifier. */
  predicate Recorded(records: seq<Record>, operationID: string) {
    operationID != "" && exists i :: 0 <= i < |records| && records[i].body.operationID == operationID
  }

  function TryAppend(hash: Hash, signer: Option<Signer>, records: seq<Record>, e: Entry): AppendResult {
    var body := BodyFor(records, e);
    if Recorded(records, e.operationID) then DuplicateOperation
    else match hash(body)
      case None => HashFailed
      case Some(digest) =>
        match signer
        case None => Appended(Record(body, digest, "", ""))
        case Some(sign) =>
          match sign(digest)
          case None => SigningFailed
          case Some(signed) => Appended(Record(body, digest, signed.0, signed.1))
  }

  class Store {
    var records: seq<Record>
    var ops: map<string, nat>
    const hash: Hash
    const signer: Option<Signer>

    /** The operation table knows exactly the operations in the log. */
    ghost predicate Valid()
      reads this
    {
      forall op :: op in ops <==> Recorded(records, op)
    }

    constructor (hash: Hash, signer: Option<Signer>)
      ensures Valid() && records == [] && this.hash == hash && this.signer == signer
    {
      this.hash, this.signer := hash, signer;
      records, ops := [], map[];
    }

    method Append(e: Entry) returns (r: AppendResult)
      requires Valid()
      modifies this
      ensures Valid() && r == TryAppend(hash, signer, old(records), e)
      ensures records == old(records) + (if r.Appended? then [r.record] else [])
    {
      if e.operationID != "" {
        if e.operationID in ops {
          return DuplicateOperation;
        }
      }
      var previous, sequence := ZERO_DIGEST, 1;
      if |records| > 0 {
        previous := records[|records| - 1].hash;
        sequence := Next(records[|records| - 1].body.sequence);
      }
      var body := Body(sequence, previous, e.time, e.actor, e.action, e.resource, e.result, e.operationID, e.metadata);
      var digest := hash(body);
      if digest.None? {
        return HashFailed;
      }
      var rec := Record(body, digest.value, "", "");
      if signer.Some? {
        var signed := signer.value(digest.value);
        if signed.None? {
          return SigningFailed;
        }
        rec := rec.(signature := signed.value.0, keyID := signed.value.1);
      }
      RecordedNext(records, rec);
      records := records + [rec];
      if e.operationID != "" {
        ops := ops[e.operationID := sequence];
      }
      r := Appended(rec);
    }
  }

  lemma RecordedNext(records: seq<Record>, r: Record)
    ensures forall op ::
              Recorded(records + [r], op) <==> Recorded(records, op) || (op != "" && op == r.body.operationID)
  {
    var all := records + [r];
    forall op ensures Recorded(all, op) <==> Recorded(records, op) || (op != "" && op == r.body.operationID) {
      if Recorded(records, op) {
        var i :| 0 <= i < |records| && records[i].body.operationID == op;
        assert all[i] == records[i];
      }
      assert all[|records|] == r;
    }
  }

  // ---------- verifying ----------

  datatype Code =
    | SequenceGap | SequenceMismatch | ChainBroken | MutationOrRemoval | HashError | Mutation
    | BadTimestamp | DuplicateOpID | NoSuchKey | InvalidSignature | Removal

  datatype Finding = Finding(code: Code, sequence: nat)

  function Text(code: Code): string {
    match code
    case SequenceGap => "sequence_gap"
    case SequenceMismatch => "sequence_mismatch"
    case ChainBroken => "chain_broken"
    case MutationOrRemoval => "mutation_or_removal"
    case HashError => "hash_error"
    case Mutation => "mutation"
    case BadTimestamp => "bad_timestamp"
    case DuplicateOpID => "duplicate_op_id"
    case NoSuchKey => "unknown_key"
    case InvalidSignature => "invalid_signature"
    case Removal => "removal"
  }

  /** What a record is checked against: whether it is the first, and what the records before it lead to. */
  datatype Expectation = Expectation(first: bool, previous: Digest, sequence: nat, repeated: bool)

  function Expected(recs: seq<Record>, i: nat): Expectation
    requires i < |recs|
  {
    Expectation(i == 0, LastHash(recs[..i]), NextSequence(recs[..i]), Recorded(recs[..i], recs[i].body.operationID))
  }

  /** What a record is checked for, in this order. */
  const CHECKS: seq<Code> := [SequenceGap, SequenceMismatch, ChainBroken, MutationOrRemoval, HashError, Mutation,
                              BadTimestamp, DuplicateOpID, NoSuchKey, InvalidSignature]

  predicate SignatureAccepted(check: Option<Checker>, r: Record) {
    r.signature == "" || (check.Some? && check.value(r) == Accepts)
  }

  predicate Has(hash: Hash, check: Option<Checker>, r: Record, x: Expectation, code: Code) {
    match code
    case SequenceGap => r.body.sequence > x.sequence
    case SequenceMismatch => r.body.sequence < x.sequence
    case ChainBroken => r.body.previous != x.previous && x.first
    case MutationOrRemoval => r.body.previous != x.previous && !x.first
    case HashError => hash(r.body) == None
    case Mutation => hash(r.body) != None && hash(r.body) != Some(r.hash)
    case BadTimestamp => r.body.time == ZERO_TIME
    case DuplicateOpID => x.repeated
    case NoSuchKey => !SignatureAccepted(check, r) && (check.None? || check.value(r) == UnknownKey)
    case InvalidSignature => !SignatureAccepted(check, r) && check.Some? && check.value(r) != UnknownKey
    case Removal => false
  }

  /** The problems found by the first `k` checks. */
  function Problems(hash: Hash, check: Option<Checker>, r: Record, x: Expectation, k: nat): seq<Finding>
    requires k <= |CHECKS|
  {
    if k == 0 then [] else
      Problems(hash, check, r, x, k - 1) + Problem(hash, check, r, x, CHECKS[k - 1])
  }

  function Problem(hash: Hash, check: Option<Checker>, r: Record, x: Expectation, code: Code): seq<Finding> {
    if Has(hash, check, r, x, code) then [Finding(code, r.body.sequence)] else []
  }

  lemma NextTwoProblems(hash: Hash, check: Option<Checker>, r: Record, x: Expectation, k: nat)
    requires k + 2 <= |CHECKS|
    ensures Problems(hash, check, r, x, k + 2) ==
            Problems(hash, check, r, x, k)
            + (Problem(hash, check, r, x, CHECKS[k]) + Problem(hash, check, r, x, CHECKS[k + 1]))
  {
    assert Problems(hash, check, r, x, k + 1) == Problems(hash, check, r, x, k) + Problem(hash, check, r, x, CHECKS[k]);
  }

  /** The problems of each record of a list. */
  function ProblemsAt(hash: Hash, check: Option<Checker>, recs: seq<Record>): nat -> seq<Finding> {
    (i: nat) => if i < |recs| then Problems(hash, check, recs[i], Expected(recs, i), |CHECKS|) else []
  }

  /** `f(0)`, `f(1)`, ... `f(n - 1)`, one after the other. */
  function Gather(f: nat -> seq<Finding>, n: nat): seq<Finding> {
    if n == 0 then [] else Gather(f, n - 1) + f(n - 1)
  }

  lemma {:induction false} GatherNothing(f: nat -> seq<Finding>, n: nat)
    ensures Gather(f, n) == [] <==> forall i: nat :: i < n ==> f(i) == []
  {
    if n > 0 {
      GatherNothing(f, n - 1);
      BothEmpty(Gather(f, n - 1), f(n - 1));
    }
  }

  /** The problems of the first `n` records. */
  function AllProblems(hash: Hash, check: Option<Checker>, recs: seq<Record>, n: nat): seq<Finding> {
    Gather(ProblemsAt(hash, check, recs), n)
  }

  function StartProblems(recs: seq<Record>): seq<Finding> {
    if recs != [] && recs[0].body.sequence != 1 then [Finding(Removal, recs[0].body.sequence)] else []
  }

  /** A list without problems: numbered from 1, linked hashes, distinct operations, good signatures. */
  ghost predicate Clean(hash: Hash, check: Option<Checker>, recs: seq<Record>) {
    forall i :: 0 <= i < |recs| ==> Sound(hash, check, recs, i)
  }

  ghost predicate Sound(hash: Hash, check: Option<Checker>, recs: seq<Record>, i: nat)
    requires i < |recs|
  {
    && recs[i].body.sequence == (if i == 0 then 1 else Next(recs[i - 1].body.sequence))
    && recs[i].body.previous == (if i == 0 then ZERO_DIGEST else recs[i - 1].hash)
    && hash(recs[i].body) == Some(recs[i].hash)
    && recs[i].body.time != ZERO_TIME
    && (recs[i].body.operationID != "" ==>
          forall j :: 0 <= j < i ==> recs[j].body.operationID != recs[i].body.operationID)
    && SignatureAccepted(check, recs[i])
  }

  lemma {:induction false} NoProblemsMeansNone(hash: Hash, check: Option<Checker>, r: Record, x: Expectation, k: nat)
    requires k <= |CHECKS|
    ensures Problems(hash, check, r, x, k) == [] <==> forall j :: 0 <= j < k ==> !Has(hash, check, r, x, CHECKS[j])
  {
    if k > 0 {
      NoProblemsMeansNone(hash, check, r, x, k - 1);
      BothEmpty(Problems(hash, check, r, x, k - 1), Problem(hash, check, r, x, CHECKS[k - 1]));
    }
  }

  /** A record without problems is as expected in every respect. */
  lemma Faultless(hash: Hash, check: Option<Checker>, r: Record, x: Expectation)
    ensures Problems(hash, check, r, x, |CHECKS|) == [] <==>
            && r.body.sequence == x.sequence && r.body.previous == x.previous
            && hash(r.body) == Some(r.hash) && r.body.time != ZERO_TIME
            && !x.repeated && SignatureAccepted(check, r)
  {
    NoProblemsMeansNone(hash, check, r, x, |CHECKS|);
    if forall j :: 0 <= j < |CHECKS| ==> !Has(hash, check, r, x, CHECKS[j]) {
      assert !Has(hash, check, r, x, CHECKS[0]) && !Has(hash, check, r, x, CHECKS[1]);
      assert !Has(hash, check, r, x, CHECKS[2]) && !Has(hash, check, r, x, CHECKS[3]);
      assert !Has(hash, check, r, x, CHECKS[4]) && !Has(hash, check, r, x, CHECKS[5]);
      assert !Has(hash, check, r, x, CHECKS[6]) && !Has(hash, check, r, x, CHECKS[7]);
      assert !Has(hash, check, r, x, CHECKS[8]) && !Has(hash, check, r, x, CHECKS[9]);
    }
  }

  lemma SoundMeansNoProblems(hash: Hash, check: Option<Checker>, recs: seq<Record>, i: nat)
    requires i < |recs|
    ensures Sound(hash, check, recs, i) <==> Problems(hash, check, recs[i], Expected(recs, i), |CHECKS|) == []
  {
    Faultless(hash, check, recs[i], Expected(recs, i));
    assert i > 0 ==> recs[..i][i - 1] == recs[i - 1];
    if Recorded(recs[..i], recs[i].body.operationID) {
      var j :| 0 <= j < i && recs[..i][j].body.operationID == recs[i].body.operationID;
      assert recs[j].body.operationID == recs[i].body.operationID;
    } else {
      forall j | 0 <= j < i && recs[i].body.operationID != ""
        ensures recs[j].body.operationID != recs[i].body.operationID
      {
        assert recs[..i][j] == recs[j];
      }
    }
  }

  lemma BothEmpty(a: seq<Finding>, b: seq<Finding>)
    ensures a + b == [] <==> a == [] && b == []
  {
    assert |a + b| == |a| + |b|;
  }

  lemma CleanMeansNoProblems(hash: Hash, check: Option<Checker>, recs: seq<Record>)
    ensures AllProblems(hash, check, recs, |recs|) == [] <==> Clean(hash, check, recs)
    ensures Clean(hash, check, recs) ==> StartProblems(recs) == []
  {
    GatherNothing(ProblemsAt(hash, check, recs), |recs|);
    forall i: nat | i < |recs| ensures ProblemsAt(hash, check, recs)(i) == [] <==> Sound(hash, check, recs, i) {
      SoundMeansNoProblems(hash, check, recs, i);
    }
    if recs != [] && Clean(hash, check, recs) {
      assert Sound(hash, check, recs, 0);
    }
  }

  // ---------- the report ----------

  predicate NotAfter(a: Finding, b: Finding) {
    || a.sequence < b.sequence
    || (a.sequence == b.sequence && (Text(a.code) == Text(b.code) || Less(Text(a.code), Text(b.code))))
  }

  predicate Sorted(fs: seq<Finding>) {
    forall i, j :: 0 <= i < j < |fs| ==> NotAfter(fs[i], fs[j])
  }

  lemma NotAfterTotal(a: Finding, b: Finding)
    ensures NotAfter(a, b) || NotAfter(b, a)
  {
    LessTotal(Text(a.code), Text(b.code));
  }

  lemma NotAfterTransitive(a: Finding, b: Finding, c: Finding)
    requires NotAfter(a, b) && NotAfter(b, c)
    ensures NotAfter(a, c)
  {
    if Less(Text(a.code), Text(b.code)) && Less(Text(b.code), Text(c.code)) {
      LessTransitive(Text(a.code), Text(b.code), Text(c.code));
    }
  }

  /** Put a finding into a sorted list, after those that do not come after it. */
  method Insert(fs: seq<Finding>, f: Finding) returns (r: seq<Finding>)
    requires Sorted(fs)
    ensures Sorted(r) && multiset(r) == multiset(fs) + multiset{f}
  {
    var k := |fs|;
    while k > 0 && !NotAfter(fs[k - 1], f)
      invariant 0 <= k <= |fs|
      invariant forall j :: k <= j < |fs| ==> NotAfter(f, fs[j])
    {
      NotAfterTotal(fs[k - 1], f);
      k := k - 1;
    }
    forall j | 0 <= j < k ensures NotAfter(fs[j], f) {
      if j < k - 1 {
        NotAfterTransitive(fs[j], fs[k - 1], f);
      }
    }
    InsertedIsSorted(fs, f, k);
    InsertedIsMore(fs, f, k);
    r := fs[..k] + [f] + fs[k..];
  }

  lemma InsertedIsSorted(fs: seq<Finding>, f: Finding, k: nat)
    requires Sorted(fs) && k <= |fs|
    requires (forall j :: 0 <= j < k ==> NotAfter(fs[j], f)) && forall j :: k <= j < |fs| ==> NotAfter(f, fs[j])
    ensures Sorted(fs[..k] + [f] + fs[k..])
  {
    var r := fs[..k] + [f] + fs[k..];
    forall i, j | 0 <= i < j < |r| ensures NotAfter(r[i], r[j]) {
      assert i != k ==> r[i] == fs[if i < k then i else i - 1];
      assert j != k ==> r[j] == fs[if j < k then j else j - 1];
    }
  }

  lemma InsertedIsMore(fs: seq<Finding>, f: Finding, k: nat)
    requires k <= |fs|
    ensures multiset(fs[..k] + [f] + fs[k..]) == multiset(fs) + multiset{f}
  {
    assert fs == fs[..k] + fs[k..];
  }

  method SortFindings(fs: seq<Finding>) returns (r: seq<Finding>)
    ensures Sorted(r) && multiset(r) == multiset(fs)
  {
    r := [];
    var i := 0;
    while i < |fs|
      invariant 0 <= i <= |fs| && Sorted(r) && multiset(r) == multiset(fs[..i])
    {
      r := Insert(r, fs[i]);
      assert fs[..i + 1] == fs[..i] + [fs[i]];
      i := i + 1;
    }
    assert fs[..i] == fs;
  }

  method CheckSequence(hash: Hash, check: Option<Checker>, r: Record, x: Expectation, before: seq<Finding>)
    returns (found: seq<Finding>)
    requires before == Problems(hash, check, r, x, 0)
    ensures found == Problems(hash, check, r, x, 2)
  {
    NextTwoProblems(hash, check, r, x, 0);
    found := before;
    if r.body.sequence != x.sequence {
      if r.body.sequence > x.sequence {
        found := found + [Finding(SequenceGap, r.body.sequence)];
      } else {
        found := found + [Finding(SequenceMismatch, r.body.sequence)];
      }
    }
  }

  method CheckLink(hash: Hash, check: Option<Checker>, r: Record, x: Expectation, before: seq<Finding>)
    returns (found: seq<Finding>)
    requires before == Problems(hash, check, r, x, 2)
    ensures found == Problems(hash, check, r, x, 4)
  {
    NextTwoProblems(hash, check, r, x, 2);
    found := before;
    if r.body.previous != x.previous {
      var code := ChainBroken;
      if !x.first {
        code := MutationOrRemoval;
      }
      found := found + [Finding(code, r.body.sequence)];
    }
  }

  method CheckHash(hash: Hash, check: Option<Checker>, r: Record, x: Expectation, before: seq<Finding>)
    returns (found: seq<Finding>)
    requires before == Problems(hash, check, r, x, 4)
    ensures found == Problems(hash, check, r, x, 6)
  {
    NextTwoProblems(hash, check, r, x, 4);
    found := before;
    var want := hash(r.body);
    if want.None? {
      found := found + [Finding(HashError, r.body.sequence)];
    } else if want.value != r.hash {
      found := found + [Finding(Mutation, r.body.sequence)];
    }
  }

  method CheckTimeAndOperation(hash: Hash, check: Option<Checker>, r: Record, x: Expectation, before: seq<Finding>)
    returns (found: seq<Finding>)
    requires before == Problems(hash, check, r, x, 6)
    ensures found == Problems(hash, check, r, x, 8)
  {
    NextTwoProblems(hash, check, r, x, 6);
    found := before;
    if r.body.time == ZERO_TIME {
      found := found + [Finding(BadTimestamp, r.body.sequence)];
    }
    if x.repeated {
      found := found + [Finding(DuplicateOpID, r.body.sequence)];
    }
  }

  method CheckSignature(hash: Hash, check: Option<Checker>, r: Record, x: Expectation, before: seq<Finding>)
    returns (found: seq<Finding>)
    requires before == Problems(hash, check, r, x, 8)
    ensures found == Problems(hash, check, r, x, 10)
  {
    NextTwoProblems(hash, check, r, x, 8);
    found := before;
    if r.signature != "" {
      if check.None? {
        found := found + [Finding(NoSuchKey, r.body.sequence)];
      } else {
        var verdict := check.value(r);
        if verdict != Accepts {
          found := found + [Finding(if verdict == UnknownKey then NoSuchKey else InvalidSignature, r.body.sequence)];
        }
      }
    }
  }

  /** The problems of one record against the running expectations. */
  method CheckRecord(hash: Hash, check: Option<Checker>, r: Record, x: Expectation) returns (found: seq<Finding>)
    ensures found == Problems(hash, check, r, x, |CHECKS|)
  {
    found := CheckSequence(hash, check, r, x, []);
    found := CheckLink(hash, check, r, x, found);
    found := CheckHash(hash, check, r, x, found);
    found := CheckTimeAndOperation(hash, check, r, x, found);
    found := CheckSignature(hash, check, r, x, found);
  }

  /** The report is OK exactly for clean lists; otherwise it lists every problem, sorted by sequence and code. */
  method VerifyRecords(hash: Hash, check: Option<Checker>, recs: seq<Record>) returns (ok: bool, findings: seq<Finding>)
    ensures ok <==> Clean(hash, check, recs)
    ensures ok <==> findings == []
    ensures Sorted(findings)
    ensures multiset(findings) == multiset(AllProblems(hash, check, recs, |recs|) + StartProblems(recs))
  {
    var found;
    ok, found := CollectProblems(hash, check, recs);
    CleanMeansNoProblems(hash, check, recs);
    BothEmpty(AllProblems(hash, check, recs, |recs|), StartProblems(recs));
    findings := SortFindings(found);
    assert |findings| == |multiset(findings)| == |multiset(found)| == |found|;
  }

  /** The running expectations after going through `recs`. */
  ghost predicate Tracks(recs: seq<Record>, expectPrev: Digest, expectSeq: nat, seen: set<string>) {
    && expectPrev == LastHash(recs) && expectSeq == NextSequence(recs)
    && forall op :: op in seen <==> Recorded(recs, op)
  }

  lemma TracksExpected(recs: seq<Record>, i: nat, expectPrev: Digest, expectSeq: nat, seen: set<string>)
    requires i < |recs| && Tracks(recs[..i], expectPrev, expectSeq, seen)
    ensures var op := recs[i].body.operationID;
            && Expected(recs, i) == Expectation(i == 0, expectPrev, expectSeq, op != "" && op in seen)
            && Tracks(recs[..i + 1], recs[i].hash, Next(recs[i].body.sequence), if op != "" then seen + {op} else seen)
  {
    assert recs[..i + 1] == recs[..i] + [recs[i]];
    RecordedNext(recs[..i], recs[i]);
  }

  /** One round of the verification loop: check the next record, then move the expectations on. */
  method CheckNext(
      hash: Hash, check: Option<Checker>, recs: seq<Record>, i: nat, expectPrev: Digest, expectSeq: nat,
      seen: set<string>)
    returns (found: seq<Finding>, previous: Digest, sequence: nat, seen': set<string>)
    requires i < |recs| && Tracks(recs[..i], expectPrev, expectSeq, seen)
    ensures found == Problems(hash, check, recs[i], Expected(recs, i), |CHECKS|)
    ensures Tracks(recs[..i + 1], previous, sequence, seen')
  {
    var r := recs[i];
    var repeated := r.body.operationID != "" && r.body.operationID in seen;
    TracksExpected(recs, i, expectPrev, expectSeq, seen);
    found := CheckRecord(hash, check, r, Expectation(i == 0, expectPrev, expectSeq, repeated));
    seen' := seen;
    if r.body.operationID != "" {
      seen' := seen' + {r.body.operationID};
    }
    previous, sequence := r.hash, Next(r.body.sequence);
  }

  method AddProblems(
      hash: Hash, check: Option<Checker>, recs: seq<Record>, i: nat, ok: bool, findings: seq<Finding>,
      expectPrev: Digest, expectSeq: nat, seen: set<string>)
    returns (ok': bool, findings': seq<Finding>, previous: Digest, sequence: nat, seen': set<string>)
    requires i < |recs| && Tracks(recs[..i], expectPrev, expectSeq, seen)
    requires findings == AllProblems(hash, check, recs, i) && (ok <==> findings == [])
    ensures findings' == AllProblems(hash, check, recs, i + 1) && (ok' <==> findings' == [])
    ensures Tracks(recs[..i + 1], previous, sequence, seen')
  {
    var found;
    found, previous, sequence, seen' := CheckNext(hash, check, recs, i, expectPrev, expectSeq, seen);
    BothEmpty(findings, found);
    findings' := findings + found;
    ok' := ok && found == [];
  }

  /** The pass over the records, before sorting. */
  method CollectProblems(hash: Hash, check: Option<Checker>, recs: seq<Record>)
    returns (ok: bool, findings: seq<Finding>)
    ensures findings == AllProblems(hash, check, recs, |recs|) + StartProblems(recs)
    ensures ok <==> findings == []
  {
    ok, findings := true, [];
    var seen := {};
    var expectPrev, expectSeq := ZERO_DIGEST, 1;
    var i := 0;
    while i < |recs|
      invariant 0 <= i <= |recs|
      invariant Tracks(recs[..i], expectPrev, expectSeq, seen)
      invariant findings == AllProblems(hash, check, recs, i) && (ok <==> findings == [])
    {
      ok, findings, expectPrev, expectSeq, seen :=
        AddProblems(hash, check, recs, i, ok, findings, expectPrev, expectSeq, seen);
      i := i + 1;
    }
    if |recs| > 0 && recs[0].body.sequence != 1 {
      ok, findings := false, findings + [Finding(Removal, recs[0].body.sequence)];
    }
  }

  // ---------- an appended log is clean ----------

  /** The log after some attempts to append, the failed ones leaving it as it was. */
  function LogOf(hash: Hash, signer: Option<Signer>, entries: seq<Entry>): seq<Record> {
    if entries == [] then [] else
      var log := LogOf(hash, signer, entries[..|entries| - 1]);
      var r := TryAppend(hash, signer, log, entries[|entries| - 1]);
      if r.Appended? then log + [r.record] else log
  }

  lemma CleanNext(hash: Hash, check: Option<Checker>, recs: seq<Record>, r: Record)
    ensures Clean(hash, check, recs + [r]) <==>
              && Clean(hash, check, recs)
              && Problems(hash, check, r, Expected(recs + [r], |recs|), |CHECKS|) == []
  {
    var all := recs + [r];
    SoundMeansNoProblems(hash, check, all, |recs|);
    forall i | 0 <= i < |recs| ensures Sound(hash, check, all, i) <==> Sound(hash, check, recs, i) {
      assert forall j :: 0 <= j <= i ==> all[j] == recs[j];
    }
  }

  /** The clock did not read zero when the record was made, and its signature is accepted. */
  predicate WellMade(check: Option<Checker>, r: Record) {
    r.body.time != ZERO_TIME && SignatureAccepted(check, r)
  }

  lemma AppendIsClean(hash: Hash, signer: Option<Signer>, check: Option<Checker>, log: seq<Record>, e: Entry)
    requires TryAppend(hash, signer, log, e).Appended?
    ensures var r := TryAppend(hash, signer, log, e).record;
            && (Clean(hash, check, log + [r]) <==> Clean(hash, check, log) && WellMade(check, r))
            && (signer == None ==> SignatureAccepted(check, r))
  {
    var r := TryAppend(hash, signer, log, e).record;
    var all := log + [r];
    CleanNext(hash, check, log, r);
    assert all[..|log|] == log && all[|log|] == r;
    Faultless(hash, check, r, Expected(all, |log|));
  }

  lemma AllThenOne(check: Option<Checker>, log: seq<Record>, r: Record)
    ensures (forall i :: 0 <= i < |log + [r]| ==> WellMade(check, (log + [r])[i])) <==>
            (forall i :: 0 <= i < |log| ==> WellMade(check, log[i])) && WellMade(check, r)
  {
    var all := log + [r];
    assert all[|log|] == r;
    if forall i :: 0 <= i < |all| ==> WellMade(check, all[i]) {
      forall i | 0 <= i < |log| ensures WellMade(check, log[i]) {
        assert all[i] == log[i];
      }
    }
  }

  /**
   Every log made by appending, from any entries and under any failures, verifies clean exactly when the clock
   never read zero and the checker accepts what the signer signed; an unsigned log needs no keys.
   */
  lemma {:induction false} AppendedLogIsClean(
      hash: Hash, signer: Option<Signer>, check: Option<Checker>, entries: seq<Entry>)
    ensures var log := LogOf(hash, signer, entries);
            Clean(hash, check, log) <==> forall i :: 0 <= i < |log| ==> WellMade(check, log[i])
    ensures signer == None ==> forall i :: 0 <= i < |LogOf(hash, signer, entries)| ==>
              SignatureAccepted(check, LogOf(hash, signer, entries)[i])
  {
    if entries != [] {
      var init, e := entries[..|entries| - 1], entries[|entries| - 1];
      AppendedLogIsClean(hash, signer, check, init);
      var log := LogOf(hash, signer, init);
      if TryAppend(hash, signer, log, e).Appended? {
        AppendIsClean(hash, signer, check, log, e);
        AllThenOne(check, log, TryAppend(hash, signer, log, e).record);
      }
    }
  }

  // ---------- a tip hash pins down the whole history ----------

  /** Two different bodies, one from each list, with the same digest. */
  ghost predicate Collide(hash: Hash, a: seq<Record>, b: seq<Record>) {
    exists i, j :: 0 <= i < |a| && 0 <= j < |b| && a[i].body != b[j].body && hash(a[i].body) == hash(b[j].body)
  }

  lemma {:induction false} SequenceIsPosition(hash: Hash, check: Option<Checker>, recs: seq<Record>, i: nat)
    requires Clean(hash, check, recs) && i < |recs| <= MAX_LENGTH
    ensures recs[i].body.sequence == i + 1
  {
    assert Sound(hash, check, recs, i);
    if i > 0 {
      SequenceIsPosition(hash, check, recs, i - 1);
    }
  }

  /** From a position with equal record hashes back to the start, all bodies agree unless some collide. */
  lemma {:induction false} AgreesBackwards(
      hash: Hash, check: Option<Checker>, check': Option<Checker>, a: seq<Record>, b: seq<Record>, n: nat)
    requires Clean(hash, check, a) && Clean(hash, check', b) && !Collide(hash, a, b)
    requires n < |a| && n < |b| && a[n].hash == b[n].hash
    ensures forall i :: 0 <= i <= n ==> a[i].body == b[i].body
  {
    assert Sound(hash, check, a, n) && Sound(hash, check', b, n);
    assert a[n].body == b[n].body;
    if n > 0 {
      AgreesBackwards(hash, check, check', a, b, n - 1);
    }
  }

  /**
   Two non-empty lists that verify clean and end in the same record hash have the same length and the same hashed
   fields everywhere, or else they exhibit two different bodies with the same digest.
   */
  lemma TipFixesHistory(hash: Hash, check: Option<Checker>, check': Option<Checker>, a: seq<Record>, b: seq<Record>)
    requires Clean(hash, check, a) && Clean(hash, check', b)
    requires 0 < |a| <= MAX_LENGTH && 0 < |b| <= MAX_LENGTH
    requires a[|a| - 1].hash == b[|b| - 1].hash
    ensures Collide(hash, a, b) || (|a| == |b| && forall i :: 0 <= i < |a| ==> a[i].body == b[i].body)
  {
    if !Collide(hash, a, b) {
      assert Sound(hash, check, a, |a| - 1) && Sound(hash, check', b, |b| - 1);
      assert a[|a| - 1].body == b[|b| - 1].body;
      SequenceIsPosition(hash, check, a, |a| - 1);
      SequenceIsPosition(hash, check', b, |b| - 1);
      AgreesBackwards(hash, check, check', a, b, |a| - 1);
    }
  }
}
