# ShiftLock, verified

ShiftLock moves ownership of named claims from one process generation to the next with fencing tokens, and
builds workflows, resource leases, rate limits, replay protection and an audit log around that. This project
models the logic of those components in Dafny 4.11 and proves what they promise over every run, every
interleaving and every graph. `dafny verify dfyconfig.toml` checks all of it; nothing here executes the
original program.

## How the project is laid out

| part | modules | main results |
|---|---|---|
| Claim protocol | `ClaimRecords`, `ClaimMachine`, `ClaimRules`, `ClaimStore`, `MemoryBackend`, `RedisLocal`, `KubernetesBackend` | one abstract claim machine; all three backends refine it; tokens are epochs; retries change nothing |
| Fencing | `FencedWrites`, `ClusterWrites`, `TokenValidator` | no predecessor's write lands after a successor's, with every backend; the compare-and-swap loop under any interleaving |
| Handoff and local leases | `OperationIDs`, `Handoff`, `LocalClaim` | a two-phase transfer over many claims leaves none reserved and the local leases in step; locked sections under any interleaving |
| Graphs | `Names`, `Graphs`, `Topology`, `DependencyGraph`, `WorkflowDefinition`, `HealthReport` | Kahn's algorithm gives the least topological order exactly without cycles; closure and cycle searches are exact |
| Workflow engine | `WorkflowRuns`, `WorkflowUndo`, `WorkflowBatch`, `WorkflowReady`, `WorkflowOutcomes`, `WorkflowGuards`, `WorkflowEngine`, `WorkflowRestart` | exactly which unrepeatable steps stay at-most-once across crashes, every ordinary failure undone in reverse, exactly-once completion, no action without the answers that allow it, both executors |
| Bounded stores and chains | `AntiReplay`, `AuditLog`, `ResourceLeases`, `RateLimit` | exact replay bound; a tip hash pins the history; compatible leases and rollback; the token-bucket bound |

Code that updates fields in place is modelled by a class whose methods are proved against functions on values
(`Apply`, `Enter`, `Perform`, `TryLease`, ...). The statements about whole runs are lemmas about those
functions, so they hold for the classes. Clocks, contexts, lockdown, registry lookups, actions, hashes and
signatures are parameters.

Points of interpretation:

- A backend call reads the clock once; the originals may read it several times within one call. A call on the
  lease manager or the rate limiter likewise gets one reading.
- Generation and successor names are non-empty (`Request.Named`), as `config.go:106` and `handoff.go:97` ensure.
- The operation table is looked up by identifier alone, as in the originals: a remembered reply is returned even
  if the request names another claim. Epochs shown to callers are therefore counted by the record's own name.
- The backends differ where `ClaimRules.Dialect` says so: Redis counts a lease as expired at its deadline,
  the others after it; Redis keeps the transfer and drain status on release and expiry; the in-memory backend
  does not bump the version when an owner re-acquires.
- Tokens are 64-bit; the guard against exhausting them is modelled. Version and outcome counters are unbounded.
- `prepareStepResume` has no case for a step caught while compensating: such a step goes ahead again, whatever
  its mode (`Engine.PrepareStepResume` gives up exactly where `Refuses` says). So a step that must not be repeated
  is not always started at most once. Without parallel groups the exact condition is `MayBeUndone`, which can be
  read off the definition: the step has a compensator, and some later step of the order does not ask for
  reconciliation. Where it fails, no sequence of crashing and resuming processes starts the step twice
  (`Lifetimes`); where it holds, two processes do (`StartedTwice`). With parallel groups a step without a
  compensator is started at most once, and any other only more often if it was stored as compensating.
- The outside world of the workflow engine is an `Environment`: its answers are a function of how often it was
  asked and, for actions, of the step. Every result and every event is tied to answers it really gave (`Explained`,
  `Honest`), and each action to the questions asked before it (`Engine.checks`, a history variable).
- A handoff reads the clock once for each backend call; the readings need not be ordered.
- In the parallel executor a step whose siblings failed is marked failed even if its mode asks for
  reconciliation. It is still never invoked again, because that executor passes over failed steps; this is why
  `Settled` depends on `HasParallel`.
- The parallel executor's "no ready steps" exit cannot be reached in any run, resumed or not
  (`StuckMeansGivenUp`, `ReportStuck`).
- A token bucket smaller than one token never lets a call through (`PassesExactlyWhenAllowed`).

## Model

| member | source | states |
|---|---|---|
| ClaimMachine.StepKeepsWellFormed | backend/memory/memory.go:241-548 | every step keeps an owner exactly while live and a successor exactly while reserved; the token stays or grows by one, and a live claim with the same token had the same owner |
| ClaimMachine.TokensNeverDecrease | backend/memory/memory.go:241-548 | in every run of the machine the token of a claim never decreases |
| ClaimMachine.OneHolderPerToken | backend/memory/memory.go:241-548 | over a whole run a token is held by at most one generation |
| ClaimMachine.ReservationWasPrepared | backend/memory/memory.go:355-403 | a reserved claim was prepared by its owner for that successor under that token and has stayed reserved since |
| ClaimMachine.EpochEndsOnlyBy | backend/memory/memory.go:241-548 | a live epoch ends only by expiry, by a release naming it, or by a commit after an unaborted prepare naming it |
| ClaimRules.RefreshIsExpiry | backend/memory/memory.go:241-260 | lazy expiry is the machine's expiry step and nothing else, in every dialect |
| ClaimRules.DecisionIsStep | backend/memory/memory.go:262-548 | whatever record a request writes is one legal step of the machine, in every dialect |
| ClaimStore.RepliesShowStoredRecords | backend/memory/memory.go:228-548 | every record a call returns or newly remembers is the one now stored under its own name, or an earlier remembered one |
| ClaimStore.CallIsStep | backend/memory/memory.go:228-548 | each call is one step (possibly stuttering) on every claim |
| ClaimStore.StoreRefinesMachine | backend/memory/memory.go:228-548 | every run of an atomic store is, on each claim, a run of the machine whose expiries are overdue leases and whose actions are named by the requests |
| ClaimStore.TokensAreEpochs | backend/redis/local.go:105-359 | over every run of an atomic store tokens never decrease and a token has at most one holder |
| ClaimStore.LiveEpochEndsOnlyBy | backend/memory/memory.go:241-548 | a live epoch (g, t) ends only when its lease is overdue, when a release names g and t, or when a commit names (g, s, t) after an unaborted prepare naming (g, s, t) |
| ClaimStore.OperationsAreKept | backend/memory/memory.go:82-106 | a remembered operation result is never changed or lost |
| ClaimStore.SuccessIsRemembered | backend/memory/memory.go:96-106 | a successful call with an operation identifier leaves its reply remembered |
| ClaimStore.RetriesChangeNothing | backend/memory/memory.go:82-106 | inserting any number of retries of a successful call anywhere later leaves the store as without them, and each returns the same reply |
| ClaimStore.CommitMoves | backend/memory/memory.go:405-466 | a commit that moves the token moves it from the one it expects to the next |
| ClaimStore.CommitAdvancesOnce | backend/memory/memory.go:405-466 | commits for one expected token advance it at most once, whatever operation identifiers they carry |
| MemoryBackend.AdvanceToken | backend/memory/memory.go:108-113 | the next token, or overflow once the guard is reached; never a wrapped one |
| MemoryBackend.Backend.constructor | backend/memory/memory.go:63-75 | a new backend has no claims and no remembered operations |
| MemoryBackend.Backend.RecallOp | backend/memory/memory.go:82-94 | finds exactly the remembered reply of a non-empty identifier |
| MemoryBackend.Backend.StoreOp | backend/memory/memory.go:96-106 | remembers the reply of a non-empty identifier and changes nothing else |
| MemoryBackend.Backend.ExpireLocked | backend/memory/memory.go:241-260 | an overdue claim loses its owner, keeps its token; other claims are untouched |
| MemoryBackend.Backend.GetClaim | backend/memory/memory.go:228-239 | the call does to the store, and replies, what the specified step says |
| MemoryBackend.Backend.AcquireClaim | backend/memory/memory.go:262-319 | the call does to the store, and replies, what the specified step says, including re-acquisition, held claims and overflow |
| MemoryBackend.Backend.RenewClaim | backend/memory/memory.go:321-353 | the call does to the store, and replies, what the specified step says, including each refusal |
| MemoryBackend.Backend.PrepareTransfer | backend/memory/memory.go:355-403 | the call does to the store, and replies, what the specified step says, including repeated and conflicting prepares |
| MemoryBackend.Backend.CommitTransfer | backend/memory/memory.go:405-466 | the call does to the store, and replies, what the specified step says, including a commit already done |
| MemoryBackend.Backend.AbortTransfer | backend/memory/memory.go:468-507 | the call does to the store, and replies, what the specified step says, including an abort of nothing |
| MemoryBackend.Backend.ReleaseClaim | backend/memory/memory.go:509-548 | the call does to the store, and reports, what the specified step says, including a release already done |
| RedisLocal.AdvanceLocal | backend/redis/local.go:75-80 | the next token, or overflow once the guard is reached |
| RedisLocal.Local.constructor | backend/redis/local.go:26-32 | a new store has no claims and no remembered operations |
| RedisLocal.Local.Recall | backend/redis/local.go:48-61 | finds exactly the remembered reply of a non-empty identifier |
| RedisLocal.Local.Keep | backend/redis/local.go:63-73 | remembers the reply of a non-empty identifier and changes nothing else |
| RedisLocal.Local.Expire | backend/redis/local.go:105-117 | a claim at or past its deadline loses its owner and keeps its token |
| RedisLocal.Local.GetClaim | backend/redis/local.go:119-129 | refines the same store step as the in-memory backend, in the Redis dialect |
| RedisLocal.Local.AcquireClaim | backend/redis/local.go:131-174 | refines the same store step as the in-memory backend, in the Redis dialect |
| RedisLocal.Local.RenewClaim | backend/redis/local.go:176-204 | refines the same store step as the in-memory backend, in the Redis dialect |
| RedisLocal.Local.PrepareTransfer | backend/redis/local.go:206-243 | refines the same store step as the in-memory backend, in the Redis dialect |
| RedisLocal.Local.CommitTransfer | backend/redis/local.go:245-292 | refines the same store step as the in-memory backend, in the Redis dialect |
| RedisLocal.Local.AbortTransfer | backend/redis/local.go:294-327 | refines the same store step as the in-memory backend, in the Redis dialect |
| RedisLocal.Local.ReleaseClaim | backend/redis/local.go:329-359 | refines the same store step as the in-memory backend, in the Redis dialect |
| KubernetesBackend.LeaseRoundTrip | backend/kubernetes/kubernetes.go:169-232 | writing a record to a lease object and reading it back preserves everything but times, and the new deadline lies after the write and at most the requested time away |
| KubernetesBackend.MemoryLeaseClient.constructor | backend/kubernetes/kubernetes.go:550-552 | a new client has no leases |
| KubernetesBackend.MemoryLeaseClient.Get | backend/kubernetes/kubernetes.go:554-562 | the stored lease, or nothing |
| KubernetesBackend.MemoryLeaseClient.CreateLease | backend/kubernetes/kubernetes.go:564-575 | stores a new lease under a fresh version, or fails if one exists |
| KubernetesBackend.MemoryLeaseClient.UpdateLease | backend/kubernetes/kubernetes.go:577-592 | replaces a lease only at the version it was read at, under a fresh version |
| KubernetesBackend.ResolveIsSound | backend/kubernetes/kubernetes.go:277-509 | the update a client computes from a lease it read is one machine step from that lease |
| KubernetesBackend.ExamineIsSound | backend/kubernetes/kubernetes.go:234-270 | reading a lease leaves a client with a decision, an answer, or an expiry write that its clock reading justifies and that is sound as long as the lease is unchanged |
| KubernetesBackend.TurnIsStep | backend/kubernetes/kubernetes.go:234-509 | every successful create or version-checked update, and every read, conflict or abandoned call, is one machine step on each claim |
| KubernetesBackend.TurnKeepsInv | backend/kubernetes/kubernetes.go:577-592 | a write that is still at its version is based on the current lease, whatever the other clients did |
| KubernetesBackend.PendingWasIssued | backend/kubernetes/kubernetes.go:234-509 | a client only works on requests it was given and goes by clock readings it took |
| KubernetesBackend.LabelIsJustified | backend/kubernetes/kubernetes.go:234-270 | an expiry is written only for a lease that is overdue by the writer's own earlier clock reading, and every other change was requested |
| KubernetesBackend.ClusterRefinesMachine | backend/kubernetes/kubernetes.go:234-592 | under every interleaving of any number of clients each claim goes through a run of the machine; whatever expires was overdue by a clock reading of the client that wrote it, and every action was asked for by a request naming it |
| KubernetesBackend.ClusterTokensAreEpochs | backend/kubernetes/kubernetes.go:234-592 | under every interleaving tokens never decrease and a token has at most one holder |
| KubernetesBackend.ClusterEpochEndsOnlyBy | backend/kubernetes/kubernetes.go:234-592 | under every interleaving a live epoch (g, t) ends only when a client found its lease overdue, when a release names g and t, or when a commit names (g, s, t) after an unaborted prepare naming (g, s, t) |
| FencedWrites.Resource.constructor | fencing/memory/memory.go:21-21 | a new resource has token 0 and no value |
| FencedWrites.Resource.Write | fencing/memory/memory.go:24-33 | a write is accepted exactly when its token is not zero and not below the last one; a refused write changes nothing |
| FencedWrites.RunKeepsInv | fencing/memory/memory.go:24-33 | in every run epochs shown to callers were held, and no two generations held the same token |
| FencedWrites.NoStaleWriteLands | fencing/memory/memory.go:24-33 | in every run of backend calls, clock readings and writes, accepted writes have non-decreasing tokens and all writes under one token come from one generation |
| FencedWrites.CurrentHolderIsAccepted | fencing/memory/memory.go:24-33 | the generation holding the claim is never fenced out |
| ClusterWrites.NoStaleWriteLands | backend/kubernetes/kubernetes.go:234-592 | the same for claims kept as Kubernetes leases: in every interleaving of writes with the clients' reads, creates, version-checked updates, failures and crashes, accepted writes have non-decreasing tokens and all writes under one token come from one generation |
| ClusterWrites.CurrentHolderIsAccepted | backend/kubernetes/kubernetes.go:234-592 | nor is the generation holding the lease ever fenced out there |
| TokenValidator.RunKeepsInv | fencing.go:40-56 | under every interleaving a loaded value is below its call's token and at most the stored epoch, and an accepted token is covered by it |
| TokenValidator.EpochNeverDecreases | fencing.go:40-56 | under every interleaving the stored epoch never decreases, and an answer once given stays |
| TokenValidator.AcceptedStaysCovered | fencing.go:40-56 | after a call returned true for t the epoch is at least t for good |
| TokenValidator.LaterSmallerTokenIsRejected | fencing.go:40-56 | a call that begins later with a smaller token never gets to swap and returns false |
| TokenValidator.RetriesAreBounded | fencing.go:40-56 | a call retries at most as often as its token allows, so it returns |
| TokenValidator.RetryMeansProgress | fencing.go:40-56 | a failed swap means the epoch moved past the loaded value, which strictly shrinks the distance left |
| LocalClaim.Claim.constructor | claim.go:9-21 | a new claim object has no lease, no wait channel and is open |
| LocalClaim.Claim.EnterSection | claim.go:98-119 | first section of tryAcquire: closed, already leased, busy, or proceed with the current wait channel |
| LocalClaim.Claim.InstallSection | claim.go:139-172 | section after a grant: give it back if closed, keep a valid lease, or replace the lease by a new one for the granted token |
| LocalClaim.Claim.LeaveSection | claim.go:121-127 | deferred section: the flag is cleared, the waiters' channel closed once and replaced |
| LocalClaim.Claim.ApplyRecordSection | claim.go:246-268 | a record that ends our control revokes the lease; otherwise the lease takes its token |
| LocalClaim.Claim.EnsureLocalLeaseSection | claim.go:280-309 | an open claim under our control ends up with exactly one valid lease for its token |
| LocalClaim.Claim.RevokeLeaseSection | claim.go:215-228 | the installed lease is revoked and removed |
| LocalClaim.Claim.CloseSection | claim.go:323-333 | the claim is closed and its lease revoked |
| LocalClaim.RunKeepsInv | claim.go:98-333 | every interleaving of the locked sections keeps the invariants on leases, channels and releases |
| LocalClaim.OnlyInstalledLeaseIsLive | claim.go:98-333 | a lease handed out is uncancelled only while it is the installed one, and none is live after close |
| LocalClaim.OneAcquireInFlight | claim.go:98-183 | at most one backend acquire is in flight, and each wait channel is closed at most once |
| LocalClaim.LateGrantIsReleased | claim.go:139-152 | under every interleaving: once a grant finds the claim closed, its call is about to release exactly the token granted, or has ended with "closed after acquire" and has released that token exactly once; it never returns a lease |
| LocalClaim.OnlyLateGrantsAreReleased | claim.go:139-152 | conversely, a call releases something only if its grant had found the claim closed |
| OperationIDs.DecimalRoundTrip | coordinator.go:108-120 | the decimal text of a number determines it |
| OperationIDs.OperationIDsDiffer | coordinator.go:99-106 | identifiers with different sequence numbers differ, whatever the names contain |
| Handoff.PrepareReserves | handoff.go:128-147 | a prepare of an owned claim with a new operation identifier reserves it and touches nothing else |
| Handoff.CommitTransfers | handoff.go:183-212 | a commit of a reserved claim gives it to the successor at the next token and touches nothing else |
| Handoff.AbortRestores | handoff.go:291-316 | an abort of a reserved claim gives it back at the same token and touches nothing else |
| Handoff.Handoff.NewOpID | coordinator.go:99-106 | a new identifier was never used before |
| Handoff.Handoff.Reserve | handoff.go:123-147 | one prepare call: the claim is reserved, or nothing happened |
| Handoff.Handoff.Hand | handoff.go:183-212 | one commit call: the successor owns the claim at the next token, for the lease time from the clock reading of this call, or it stays reserved |
| Handoff.Handoff.Undo | handoff.go:297-315 | one abort call: the owner has the claim back at the same token, and a local lease at that token unless the claim is closed or shutting down |
| Handoff.Handoff.AbortTokens | handoff.go:291-316 | all given reservations are undone, in the backend and in the local leases, the other claims untouched |
| Handoff.Handoff.ReserveAll | handoff.go:115-153 | every held claim is reserved, or after a failure every one is back with its owner and held locally under the same token |
| Handoff.Handoff.HandAll | handoff.go:181-212 | the claims before the failure point belong to the successor and have no local lease, the rest are back with their owner and have one at the old token, none is reserved |
| Handoff.Handoff.BeginTransfer | handoff.go:97-116 | goes on exactly with a successor, an open handoff and a finished drain |
| Handoff.Handoff.Transfer | handoff.go:96-160 | exactly when it succeeds all held claims are reserved; otherwise all are with their owner |
| Handoff.Handoff.Commit | handoff.go:163-220 | commits up to the failure point and compensates the rest, local leases included; refuses without a transfer or after the end |
| Handoff.Handoff.Abort | handoff.go:223-260 | every reserved claim is back with its owner at the same token, with its local lease; refused after a commit |
| Handoff.Handoff.HandOver | handoff.go:96-316 | one transfer followed by a commit or an abort whether or not it succeeded, with a clock reading for each call and any one prepare and one commit failing unapplied: each claim ends with the successor at token + 1 or with its owner at the same token, exactly those before the failure point are handed over, none stays reserved; no claim handed over has a local lease, every other is held locally under its old token, and with a lease again if it had been reserved |
| Graphs.NewEdgeClosesCycle | resource/dependency.go:20-39 | adding an edge to an acyclic graph closes a cycle exactly when the target already reaches the source |
| Topology.GreedySucceedsIffAcyclic | resource/dependency.go:77-131 | repeatedly taking the least ready node places all nodes exactly when there is no cycle |
| Topology.GreedyIsLeast | resource/dependency.go:77-131 | that order is lexicographically at most every other topological order |
| Topology.OrderMeansAcyclic | resource/dependency.go:77-131 | a graph with a topological order has no cycle |
| DependencyGraph.PlaceNext | resource/dependency.go:107-126 | one round of the loop places the least ready node and keeps counts and ready list exact |
| DependencyGraph.StartupOrder | resource/dependency.go:77-131 | the loop over mutable counts computes the greedy order, whatever order the maps are ranged over |
| DependencyGraph.StartupOrderIsLeast | resource/dependency.go:77-131 | the order fails exactly on a cycle among the known nodes, and is otherwise the least topological order with each node once |
| DependencyGraph.WithoutStaysAcyclic | resource/dependency.go:41-49 | removing a node creates no cycle |
| DependencyGraph.OperationsStayAcyclic | resource/dependency.go:20-49 | after any sequence of definitions and removals from the empty graph the graph is acyclic |
| DependencyGraph.Dependencies.constructor | resource/dependency.go:15-17 | a new graph has no edges |
| DependencyGraph.Dependencies.HasCycle | resource/dependency.go:133-150 | answers exactly whether the edge map has a cycle |
| DependencyGraph.Dependencies.Define | resource/dependency.go:20-39 | with distinct non-empty endpoints succeeds exactly when the target has no path to the source; a refused definition leaves the edge map exactly as before |
| DependencyGraph.Dependencies.RemoveNode | resource/dependency.go:41-49 | the node disappears as source and as target, all other edges stay |
| WorkflowDefinition.TopoSteps | workflow/definition.go:202-245 | the loop over counted dependency entries computes the greedy order of the steps |
| WorkflowDefinition.PlaceNext | workflow/definition.go:220-240 | one round places the least ready step and keeps the counts exact, repeated entries included |
| WorkflowDefinition.CheckDependencies | workflow/definition.go:182-188 | true exactly when every dependency names a step |
| WorkflowDefinition.Build | workflow/definition.go:175-200 | fails with the error an earlier builder call recorded, else exactly for no steps, an unknown dependency or a cycle; otherwise its order is the least topological order |
| WorkflowDefinition.TopoStepsIsLeast | workflow/definition.go:202-245 | the order is complete exactly without cycles, and then the least topological order |
| WorkflowDefinition.RepetitionsDoNotMatter | workflow/definition.go:202-245 | definitions with the same dependency sets get the same order |
| HealthReport.Dependents | health/analysis.go:80-102 | the sorted, duplicate-free list of exactly the other nodes with a dependency path to the name |
| HealthReport.Visit | health/analysis.go:41-58 | a visit finds a cycle ahead of its node or finishes it, leaving finished nodes that lead to none |
| HealthReport.ReportsCycle | health/analysis.go:27-64 | a cycle is reported exactly when some declared non-empty node leads to one, self-edges included, in any visiting order |
| AntiReplay.EvictWellFormed | anti_replay.go:84-102 | eviction keeps the order a duplicate-free listing of the map's keys, within the bound |
| AntiReplay.StoreWellFormed | anti_replay.go:71-82 | storing keeps the order a duplicate-free listing of the map's keys, within the bound |
| AntiReplay.ReplayCache.constructor | anti_replay.go:19-32 | an empty cache; a bound that is not positive becomes 1024 |
| AntiReplay.ReplayCache.CompactKey | anti_replay.go:89-100 | one key is dropped or moved up in place, the rest of the list still unread |
| AntiReplay.ReplayCache.EvictExpired | anti_replay.go:84-102 | in-place compaction leaves exactly the live keys, in order, in list and map |
| AntiReplay.ReplayCache.StoreKey | anti_replay.go:71-82 | a new key goes last, the oldest goes when full, a known key gets the new expiry |
| AntiReplay.ReplayCache.CheckAndStore | anti_replay.go:35-51 | rejects an empty key and a live one, otherwise stores the key for its lifetime, one minute if none is given |
| AntiReplay.ReplayCache.Seen | anti_replay.go:54-61 | exactly whether the key is present and unexpired |
| AntiReplay.ReplayCache.Len | anti_replay.go:64-69 | the number of unexpired keys |
| AntiReplay.StepRemembers | anti_replay.go:35-51 | a call leaves a remembered key remembered, behind it only keys accepted since, and rejects that key |
| AntiReplay.AcceptedKeyIsRejected | anti_replay.go:35-102 | a key accepted with a lifetime is rejected at every later instant of that lifetime if fewer than max keys were accepted in between |
| AntiReplay.RejectedIffFewerThanMax | anti_replay.go:35-102 | when the keys in between outlive the second attempt, it is rejected exactly if fewer than max of them were accepted |
| AuditLog.Store.constructor | audit/audit.go:153-159 | an empty log |
| AuditLog.Store.Append | audit/audit.go:162-211 | appends the next record, linked and hashed, or reports a duplicate operation, a hashing or a signing failure and leaves the log alone |
| AuditLog.Faultless | audit/audit.go:255-331 | a record has no findings exactly when it is as expected in every respect |
| AuditLog.CheckRecord | audit/audit.go:255-331 | collects exactly the findings of one record against the running expectations, in order |
| AuditLog.VerifyRecords | audit/audit.go:246-352 | OK exactly for a clean list; otherwise all findings, sorted by sequence and code |
| AuditLog.AppendedLogIsClean | audit/audit.go:162-211 | every appended log verifies clean exactly when no clock reading was zero and its signatures are accepted; an unsigned one needs no keys |
| AuditLog.SequenceIsPosition | audit/audit.go:246-352 | in a clean list the sequence number is the position |
| AuditLog.TipFixesHistory | audit/audit.go:246-352 | two non-empty clean lists ending in the same record hash have equal length and equal hashed fields everywhere, or exhibit two different bodies with the same digest |
| ResourceLeases.FencedModesDoNotShare | resource/lease.go:226-258 | the modes that require a fence are exactly those compatible with nothing |
| ResourceLeases.LeaseWellFormed | resource/lease.go:85-143 | a grant keeps the leases of each resource pairwise compatible |
| ResourceLeases.ReleaseWellFormed | resource/lease.go:146-161 | a release keeps the leases of each resource pairwise compatible |
| ResourceLeases.LeaseCounts | resource/lease.go:85-143 | a request adds one to the count of its resource, owner and mode if granted, and changes no other count |
| ResourceLeases.ReleaseCounts | resource/lease.go:146-161 | where nothing has expired a release takes exactly one off the owner's count in that mode |
| ResourceLeases.LeaseManager.constructor | resource/lease.go:66-73 | no leases and no fences |
| ResourceLeases.LeaseManager.ExpireKey | resource/lease.go:260-278 | exactly the unexpired leases of the resource stay, in order |
| ResourceLeases.LeaseManager.CheckCompatible | resource/lease.go:235-246 | true exactly when the mode is compatible with every lease held |
| ResourceLeases.LeaseManager.LeaseOne | resource/lease.go:85-143 | grants or refuses as specified: owner, registry, fence, lockdown, conflict, stale fence |
| ResourceLeases.LeaseManager.AdmitHere | resource/lease.go:112-142 | the decision against held leases and fence, with the new lease and the advanced fence |
| ResourceLeases.LeaseManager.Release | resource/lease.go:146-161 | removes the owner's first lease in that mode, or reports that there is none |
| ResourceLeases.LeaseManager.ReleaseLeases | resource/lease.go:219-224 | gives back all acquired leases, last first, restoring all counts |
| ResourceLeases.LeaseManager.AcquireAll | resource/lease.go:174-207 | with a fixed clock a failure leaves the number of unexpired leases per resource, owner and mode unchanged; a success adds exactly one lease per identifier, in order |
| ResourceLeases.LeasesStayCompatible | resource/lease.go:85-278 | in every run the leases stored per resource are pairwise compatible |
| ResourceLeases.GrantedFencesNeverDecrease | resource/lease.go:115-126 | successive grants that need a fence carry non-decreasing, non-zero fences |
| RateLimit.Resource.constructor | resource/ratelimit/ratelimit.go:38-59 | a full bucket; the defaults for capacity and rate |
| RateLimit.Resource.RefillNow | resource/ratelimit/ratelimit.go:168-178 | adds rate times elapsed time, up to the capacity; a clock that went back adds nothing |
| RateLimit.Resource.TryAllow | resource/ratelimit/ratelimit.go:107-123 | lets a call through exactly when a slot is free and a whole token is there |
| RateLimit.Resource.EndCall | resource/ratelimit/ratelimit.go:126-132 | frees one slot, if one is taken |
| RateLimit.SuccessesAreBounded | resource/ratelimit/ratelimit.go:107-178 | in every run under a non-decreasing clock the calls let through in any window are at most capacity + rate times its length |
| RateLimit.PassesExactlyWhenAllowed | resource/ratelimit/ratelimit.go:107-123 | a call counts as allowed exactly when it was let through; a bucket below one token lets nothing through; slots stay within their bound |
| WorkflowRuns.BuiltIsWellFormed | workflow/definition.go:175-200 | what the builder returns has an order that lists every step once, after its dependencies |
| WorkflowRuns.EventKeepsSound | workflow/engine.go:613-645 | an event keeps every unrepeatable step invoked at most once and settled, unless it starts one again; steps once stored as compensating are excused |
| WorkflowRuns.EventsWereOnRecord | workflow/engine.go:613-645 | in every history an action started only while its step was stored as running, a compensator was called only while its step was stored as compensating, and nothing was called in a dry run |
| WorkflowRuns.UndoingWasStored | workflow/engine.go:757-759 | a step is excused only if some durable situation has it stored as compensating |
| WorkflowRuns.StatusKeepsSound | workflow/engine.go:534-581 | a status change that settles or does not concern an invoked unrepeatable step keeps the checkpoint sound |
| WorkflowRuns.OpenMeansNoneFirm | workflow/engine.go:661-718 | while a step that does not ask for reconciliation is still open, no completed step is one that only such steps follow; so compensation never reaches one |
| WorkflowRuns.EventWasCaused | workflow/engine.go:245-274 | an action starts only after its dependencies (and, in order, every earlier step) finished, ends only after it started, and is undone only after it finished |
| WorkflowRuns.AllTidyAt | workflow/engine.go:725-759 | in order, whenever a step is stored as compensating every step before it is stored as done |
| WorkflowUndo.PlanCovers | workflow/engine.go:725-731 | the compensation plan has exactly the completed steps with a compensator |
| WorkflowUndo.PlanGoesBackwards | workflow/engine.go:725-731 | the plan is in reverse completion order and names no step twice |
| WorkflowUndo.DependentsGoFirst | workflow/engine.go:720-785 | dependents are undone before what they depend on |
| WorkflowOutcomes.LawfulMeans | workflow/engine.go:483-505 | completed steps are listed once each, after their dependencies, and in the order in which they ran, except within a parallel group |
| WorkflowOutcomes.StaleMeansNewer | workflow/engine.go:744-755 | compensation stops for a stale epoch only if the resource really had an epoch newer than the one seen when the step ran |
| WorkflowOutcomes.OrdinaryFailureIsUndone | workflow/engine.go:661-785 | in a run from scratch whose failures are all ordinary, with no cancellation, lockdown, failing compensator or newer epoch, the run ends failed with every compensator of a completed step called once, in reverse completion order, and successfully |
| WorkflowBatch.EveryInterleaving | workflow/engine.go:448-477 | whatever the interleaving of a wave's goroutines, at most the allowed number run, an action is reported finished or failed exactly as its outcome says, and none starts twice |
| WorkflowReady.StuckMeansGivenUp | workflow/engine.go:285-343 | with unfinished steps and none ready, some step has failed or needs reconciliation, in every run |
| WorkflowReady.SmallestGroup | workflow/engine.go:345-365 | the smallest name among the groups of the ready steps |
| WorkflowGuards.ActionsBeginCleared | workflow/engine.go:215-290 | before any action began, every step with a resource was asked for its capabilities and had them, and in the same round the process asked whether it was cancelled and, for a mutating step, whether lockdown blocks it, and was told no; a round begins one action or actions of one parallel group |
| WorkflowGuards.AnswersAreHeeded | workflow/engine.go:215-290 | after an answer that forbids to go on nothing is asked or started any more, and every question is put at a later time than the one before |
| WorkflowGuards.NotedMeansStarted | workflow/engine.go:613-645 | what is noted as begun did start once more in the outside world |
| WorkflowEngine.Engine.constructor | workflow/engine.go:131-154 | a process that starts on whatever the store holds |
| WorkflowEngine.Engine.Compensate | workflow/engine.go:720-785 | from scratch: calls the compensators of the completed steps in reverse completion order, each at most once, and stops at the first that is locked out, stale or failing; a stop happens only for a lockdown, an epoch or a failure the environment really had; nothing but compensator calls is added to what happened |
| WorkflowEngine.Engine.CompensateStep | workflow/engine.go:728-783 | stops before the call exactly under lockdown of a mutating step or when the resource's epoch is newer than recorded |
| WorkflowEngine.Engine.FindObstacle | workflow/engine.go:736-755 | the same, as the questions alone: nothing but the count of questions changes |
| WorkflowEngine.Engine.Unwind | workflow/engine.go:583-594 | compensates, then ends failed with everything compensated, or needing intervention where it stopped; the completed steps stay exactly those whose action finished |
| WorkflowEngine.Engine.HandleStepFailure | workflow/engine.go:661-718 | needs reconciliation exactly for an ambiguous outcome or a step that asks for it; otherwise unwinds what had completed and reports this step, as retryable or not; steps never completed keep their status |
| WorkflowEngine.Engine.PrepareStepResume | workflow/engine.go:534-581 | skips exactly steps already done, gives up exactly where it must, and lets an unrepeatable step go ahead only if it was never invoked or was once stored as compensating |
| WorkflowEngine.Engine.RunStep | workflow/engine.go:613-659 | succeeds exactly when the action does; then the step was started once and finished, and is listed with the epoch its resource had; a failure ends the run as specified. That it is saved as running before its action starts is part of the history (`EventsWereOnRecord`) |
| WorkflowEngine.Engine.HaltIfLocked | workflow/engine.go:258-266 | the run is halted exactly when the step mutates and lockdown blocks it |
| WorkflowEngine.Engine.ExecuteSequential | workflow/engine.go:245-274 | from scratch the completed steps are always a prefix of the definition order, all of it when all goes well, and only the step after it can have failed; otherwise it ends as specified. New or resumed, with nobody cancelling and no lockdown the first step that is not done is started unless its status is one that is refused. A cancellation or lockdown that was seen ends the run with that result |
| WorkflowEngine.Engine.StepInOrder | workflow/engine.go:253-269 | a step already done changes nothing; any other whose status is not refused, also one caught while compensating, is started unless lockdown blocks it |
| WorkflowEngine.Engine.RunActions | workflow/engine.go:448-482 | runs the actions of a wave in any interleaving and reports one outcome each, interrupted only if somebody cancels |
| WorkflowEngine.Engine.ApplyOutcomes | workflow/engine.go:483-505 | successes are listed as completed in name order with their epochs; the first failure by name is found |
| WorkflowEngine.Engine.RunParallelBatch | workflow/engine.go:401-531 | a wave completes all its steps and no others; or it ends the run, with its successes listed by name and every other step of the wave but the failed one marked failed. A wave with a mutating step that lockdown blocks starts nothing and ends locked down |
| WorkflowEngine.Engine.FailWave | workflow/engine.go:507-530 | the siblings still running are marked failed; the run is cancelled exactly if the failure was an interruption, and otherwise unwound |
| WorkflowEngine.Engine.CollectReady | workflow/engine.go:293-322 | finds exactly the steps that are neither done nor given up and whose dependencies are done |
| WorkflowEngine.Engine.ReportStuck | workflow/engine.go:323-343 | reports the first step in definition order that was given up, as not retryable if it failed and else as needing reconciliation; the exit for none is unreachable |
| WorkflowEngine.Engine.RunNext | workflow/engine.go:345-394 | runs all ready steps of the smallest group name there is among them, or else just the first ready step; a lockdown that was seen ends the run with that result |
| WorkflowEngine.Engine.ExecuteParallel | workflow/engine.go:276-399 | from scratch with all well it completes every step, otherwise it ends as specified; it always terminates and never reports that no step is ready; a cancellation or lockdown that was seen ends the run with that result |
| WorkflowEngine.Engine.FindIncapable | workflow/engine.go:214-226 | a step is reported exactly if one with a resource lacks a capability; else all were asked and found |
| WorkflowEngine.Engine.Execute | workflow/engine.go:207-243 | validates capabilities, ends with the missing one before anything is started, and else executes with the executor the definition calls for, under the same promises |
| WorkflowEngine.Engine.Run | workflow/engine.go:116-166 | from scratch with all well: completion, each action invoked exactly once. With an ordinary failure and nothing in the way of undoing: failed, every completed step undone in reverse completion order, the first failed step by name reported. In general: the completed steps are exactly those whose action finished, the result is the state saved, and a cancellation, lockdown, missing capability, stale epoch or failure it reports really happened. Always: the durable situations on the way are a history, every action began only when the answers just before allowed it, and an answer that forbids to go on ends the run with the matching result |
| WorkflowEngine.Lifetimes | workflow/engine.go:116-718 | any number of processes, each crashing at any durable moment and the next resuming: the action of a step that must not be repeated is invoked at most once if it has no compensator or, without parallel groups, if every later step asks for reconciliation; any other only more often if some durable situation has it stored as compensating; and no action starts before its dependencies finished |
| WorkflowEngine.Lifetime | workflow/engine.go:116-166 | one such process: a run with all that `Run` promises, of which the durable situations up to the crash remain |
| WorkflowEngine.InvokedAtMostOnce | workflow/engine.go:534-645 | every history from scratch keeps unrepeatable steps invoked at most once, unless they may come to be undone and were stored as compensating |
| WorkflowRestart.DieWhileUndoing | workflow/engine.go:661-785 | in every definition without parallel groups: if a step that does not ask for reconciliation fails in an ordinary way, the run gets to where an earlier step with a compensator was started and is stored as compensating, with everything before it done; a crash there leaves that behind |
| WorkflowRestart.ResumeAfter | workflow/engine.go:534-581 | the process that resumes from there starts the step again |
| WorkflowRestart.StartedTwice | workflow/engine.go:116-785 | the other half of `Lifetimes`: without parallel groups, every step that has a compensator and comes before a step that does not ask for reconciliation is started twice by some two processes |

## Left out

- Kubernetes operation table and annotation text: the results remembered by the Kubernetes backend are not modelled, and numbers in annotations are numbers rather than decimal text.
- Kubernetes `Delete`: no claim operation calls it.
- `backend/postgres` and `backend/redis/redis.go`: their logic is SQL and Lua executed elsewhere.
- Watchers, channels to subscribers, generation registration, and the fault injection of the in-memory backend.
- `model/`: its recall path writes an old snapshot back, so the machine is built from the backends instead.
- Handoff retries after a failed commit, ambiguous backend outcomes, the timeout watcher, and draining beyond its success or failure.
- Handoff.Handoff.HandOver: assumes that no lease involved expires during the handoff, that aborts succeed, and at most one failing prepare and one failing commit.
- LocalClaim.RunKeepsInv: the `renewing` flag, the renewal loop and waiting for ownership are not part of the model.
- Builder methods of the workflow definition other than `Build`: they only set fields.
- `Report.Validate` issues other than the cycle: single-branch lookups.
- `DependenciesOf`, `MissingDependencies`, `Clone` and `Node`: plain lookups and copies.
- WorkflowEngine.Engine.Compensate: says what a run from scratch undoes; for a resumed run it only keeps every durable situation good.
- WorkflowRestart.StartedTwice: with parallel groups it is not shown which steps can be started twice, only that none without a compensator can; a wave fails without the order that the proof rests on.
- WorkflowEngine.Lifetimes: saves always succeed, one process at a time, the same definition throughout; the checkpoint store is reduced to this instance's entry, so its capacity and its file formats are not modelled.
- Step attempts, timestamps, evidence, error texts and audit calls of the workflow engine.
- Audit `Checkpoint` (an append with fixed fields), file mirroring, import and export; encoding, digests and signatures are parameters.
- Finding messages, and the stability of the findings' sort: findings with the same sequence and code are equal here.
- ResourceLeases.LeaseManager.AcquireAll: the statement about counts is for a clock that stands still and no other caller in between; identifier parsing is a parameter.
- `ReleaseHandle`, `Held` copies, rate-limit `Wait`, `Health` and `Snapshot` beyond their refill.
- Floating-point rounding in the token bucket: it is modelled over reals.
- Migration, failover, barriers, budgets, guards, configuration locks, capabilities, maintenance, lockdown, runtime façades, commands, observers and adapters.
