# Highland backend: verified models

Highland's API server keeps several small state machines whose promises are about whole runs. This
project models seven of them in Dafny, after the Go code under `apps/api/internal`, and proves those
promises.

- **Change broker** (`ChangeFrames`, `ChangeBroker`, `Hub`). Server-sent events are coalesced into
  pending frames, flushed to bounded client buffers outside the lock, and replaced by one resync
  frame when a buffer is full. `Hub` holds the objects; `ChangeBroker` interleaves their steps.
- **Login limiter** (`LoginLimiter`, `LimiterRuns`, `LimiterSweeps`, `LimiterLocks`, `RedisLimiter`).
  Two tables of counters with idle decay, exponential lockout, a hard cap and a janitor, refined
  against a log of failures, and the Lua twin for Redis.
- **Storage policy** (`ProviderNames`, `StoragePolicies`, `PolicyProtocol`). Policies ordered by what
  they permit, cut to a ceiling, and changed by plan, confirmation and apply under optimistic
  concurrency, with the replay of a change that was already applied (`PolicyReplay`).
- **Relationship graph** (`RelationshipGraph`, `ImpactSearch`, `ImpactConfidence`, `ImpactTie`,
  `ImpactOrder`, `GraphBuild`, `GraphTopology`, `GraphJoins`, `VolumeImpact`, `PoolImpact`, `Identities`,
  `GraphKinds`, `GraphIds`). Building the graph, its bounded searches, what both together guarantee to
  whoever deletes a volume or a pool, and its identifiers.
- **Descriptor registry** (`DescriptorRegistry`). A single-flight cache that serves stale answers
  while it refreshes.
- **Identity document** (`IdentityDocument`, `IdentityInvariants`, `IdentityHistories`, `IdentityEffects`,
  `UserStore`, `StaleReplicas`, `RecoveryCodes`). Mutations of users in a document that replicas share by
  compare-and-swap.
- **Audit ring** (`AuditStore`). A bounded buffer with cursor pagination.

Code that updates state in place is a class or a method with loops, proved against a function; the
lemmas are about those functions and about runs of the state machines. Time is a number that never
runs backwards. A Go map is visited in any order. A stored Kubernetes object is a register with
versions. Clocks, random values, signatures and what the network returns are parameters or steps.

Where the code does less than its obvious promise, a lemma names the exact condition or a concrete
run. The ones a maintainer may want to act on:

- `GraphTopology.BuildHiding`: the cap on potential pool-to-OSD edges cuts the graph without marking
  it incomplete whenever there are more than 2000 pairs and 2000 is a multiple of the number of OSDs,
  51 pools and 40 OSDs for example.
- `StaleReplicas.OvertakenLoad`: a refresh that a mutation overtakes brings an ended session back until
  the next refresh.
- `LimiterLocks.ShorteningPossibleExactly`: with LockoutMax above FailureWindow, a failure can end an
  active lock early.
- `IdentityInvariants.FirstChangeRevokesExactly`: a session of an account stored with version 0
  survives a password or e-mail change.
- `DescriptorRegistry.WaiterIsAnsweredByFlight`: a caller that waits for a refresh started for other
  drivers is given theirs, marked not stale.
- `DescriptorRegistry.InFlightRefreshUndoesInvalidation`, `IdentityInvariants.DemotionRefusedExactly`,
  `IdentityInvariants.RecreatedAccountAcceptsOldSessionExactly`, `RedisLimiter.TtlBoundaryExactly`,
  `AuditStore.EvictedCursorRestarts`.

Three more hold only by how the rest of the server uses the code:

- `ImpactOrder.BuildOrderFree`: reported confidences do not depend on the order of Go's maps because
  the adapters' references name backends only; `ImpactTie.TieInBuiltGraph` has the graph that a
  reference to a machine would give. No adapter produces one.
- `ChangeBroker.FixedKeysAreNeverLost`: publishes lose no keys because each scope is published with
  constant keys; `ChangeBroker.LaterPublishLosesKeys` has the run otherwise. No caller triggers it.
- `LimiterLocks.ParsedBucketsAreIsolated`: addresses cannot lock each other out because they are parsed,
  except IPv6 addresses with a zone; `LimiterLocks.UnparsedBucketCollides` has the run for any string.

`dafny verify dfyconfig.toml` checks everything.

## Model

| member | source | states |
|---|---|---|
| ChangeFrames.JoinNulInjective | apps/api/internal/watch/hub.go:279-289 | Joining NUL-free parts with NUL loses nothing, whatever the number of parts |
| ChangeFrames.ScopeKeyExact | apps/api/internal/watch/hub.go:268-309 | Two changes with NUL-free names share a pending slot exactly when they have the same scope, storage and Highland scopes included |
| ChangeFrames.NulCollisionLosesScope | apps/api/internal/watch/hub.go:279-309 | With a NUL in a name two scopes do collide, and the later mark erases the earlier one |
| ChangeFrames.SurvivesExactlyWhenCompatible | apps/api/internal/watch/hub.go:268-309 | A recorded change stays covered by its pending slot after the next record exactly unless that is a Highland publish of the same scope that leaves out one of its keys |
| ChangeFrames.RecordedCarries | apps/api/internal/watch/hub.go:268-309 | After any record the slot's frame carries the change: for a Highland publish exactly its keys, name, entity and scope, for a mark the merged keys with the latest name and no entity, and always the hub's cluster |
| ChangeBroker.RunKeepsInv | apps/api/internal/watch/hub.go:326-418 | In every interleaving: no client is both subscribed and told to leave, buffers stay within their capacity, a stopped hub has no clients, the resync frame meets an empty buffer |
| ChangeBroker.NoInvalidationLost | apps/api/internal/watch/hub.go:268-418 | In every interleaving of marks, publishes, flushes, sends, receives, subscriptions and stop, a recorded change stays covered for every client that stays subscribed: pending until a flush takes it, whatever is recorded afterwards still to be sent, about to be resynced, buffered, or received since. Only a Highland publish of the same scope before that flush can take its keys |
| ChangeBroker.QuietClientIsUpToDate | apps/api/internal/watch/hub.go:268-418 | When nothing is pending and the client has read its buffer, it has received a frame since the change that makes it refetch all the change touched |
| ChangeBroker.LastChangeIsDelivered | apps/api/internal/watch/hub.go:268-380 | In every run, the frame a flush sends for a scope carries the last change recorded for it before the flush, its entity, keys and name included, under the cluster of that moment; from then on the very frame is still to be sent to, buffered for, or received by each client that stays subscribed and whose buffer keeps room |
| ChangeBroker.QuietClientHasLastChange | apps/api/internal/watch/hub.go:268-380 | So once nothing is left to send to such a client and its buffer is read, it has received the last entity published for the scope before the flush |
| ChangeBroker.FixedKeysAreNeverLost | apps/api/internal/watch/hub.go:268-418 | If all Highland publishes of a scope have the same keys, as those of the server do, the same holds in every run without any condition on the order of publishes |
| ChangeBroker.StaysSubscribed | apps/api/internal/watch/hub.go:382-418 | A client that is subscribed now was subscribed at every state since it became known |
| ChangeBroker.LaterPublishLosesKeys | apps/api/internal/watch/hub.go:268-285 | A run in which a second publish of a Highland scope, with other keys than the first, makes the first one's unreachable for a subscribed client; the server publishes none such |
| ChangeBroker.FlushAlwaysProgresses | apps/api/internal/watch/hub.go:354-380 | While frames remain the flusher has a step, and the arm that would drop the resync frame is never ready: no send blocks |
| ChangeBroker.FlushIsBounded | apps/api/internal/watch/hub.go:326-380 | In every run, from one flush to the next the flusher takes at most 20 small steps for each frame and client, whatever handlers, informers and stop do in between |
| ChangeBroker.DrainReaches | apps/api/internal/watch/hub.go:354-380 | From the drain on, the flusher alone reaches a buffer with exactly one resync frame |
| ChangeBroker.UninterruptedSend | apps/api/internal/watch/hub.go:354-380 | The small steps of one send, undisturbed, have the effect of the Send method |
| Hub.ChangeHub.MarkScoped | apps/api/internal/watch/hub.go:287-309 | The loop over keys merges them, in order and without blanks or repetition, into the scope's frame and leaves every other slot alone |
| Hub.ChangeHub.PublishHighlandChange | apps/api/internal/watch/hub.go:268-285 | The scope's slot is replaced by the frame that carries the published event, keys, resource, name and entity, and no other slot changes |
| Hub.ChangeHub.Send | apps/api/internal/watch/hub.go:354-380 | A client that is gone keeps its buffer; otherwise the frame is appended, or a full buffer is emptied and holds one resync frame |
| Hub.ChangeHub.FlushOnce | apps/api/internal/watch/hub.go:326-352 | Pending is emptied and every client gets every frame once, in some order of the slots |
| Hub.BroadcastDelivers | apps/api/internal/watch/hub.go:326-380 | After a flush the buffer of a client that is not gone covers every change that a sent frame or the old buffer covered |
| Hub.ChangeHub.Subscribe | apps/api/internal/watch/hub.go:382-391 | A stopped hub takes no client; otherwise exactly one new client with an empty buffer is added |
| Hub.ChangeHub.Stop | apps/api/internal/watch/hub.go:402-418 | Stopping tells every client to leave, once |
| LoginLimiter.DoubledClosedForm | apps/api/internal/ratelimit/login.go:188-203 | The doubling loop in int64 returns min(base * 2^n, max) for 0 < max <= 2^62 |
| LoginLimiter.DoubledUnbounded | apps/api/internal/ratelimit/login.go:188-203 | Without a maximum it returns base * 2^n exactly when that fits an int64 |
| LoginLimiter.ClosedFormExactly | apps/api/internal/ratelimit/login.go:188-203 | With any maximum that closed form holds for every number of failures exactly when no doubling of the base falls from 2^62 up to below the maximum |
| LoginLimiter.DoubledWraps | apps/api/internal/ratelimit/login.go:188-203 | From such a value the next doubling wraps to a negative lock |
| LoginLimiter.BackoffMonotone | apps/api/internal/ratelimit/login.go:188-203 | More failures never mean a shorter lock, and no lock exceeds the maximum |
| LoginLimiter.BumpKeepsCap | apps/api/internal/ratelimit/login.go:164-184 | A failure keeps a table within MaxEntries, whichever entry map order evicts |
| LoginLimiter.BumpTouchesOthersOnlyByEviction | apps/api/internal/ratelimit/login.go:164-241 | A failure of one key changes no other entry except by eviction, and an active lock goes only when every unexpired entry is locked |
| LoginLimiter.EvictsExactlyWithoutRoom | apps/api/internal/ratelimit/login.go:164-241 | A failure drops an unexpired entry, and then just one, exactly when it needs a new entry, the table is full, and the unexpired entries alone fill it |
| LoginLimiter.EvictedIsLongestUnseen | apps/api/internal/ratelimit/login.go:208-241 | The entry evicted is unlocked unless all unexpired ones are locked, and of its kind the one unseen for longest |
| LoginLimiter.Limiter.Allow | apps/api/internal/ratelimit/login.go:75-97 | Denied exactly while one of the two keys is locked, for as long as the longer lock lasts |
| LoginLimiter.Limiter.RecordFailure | apps/api/internal/ratelimit/login.go:100-114 | Both keys are bumped, and by nothing else than one failure each |
| LoginLimiter.Limiter.RecordSuccess | apps/api/internal/ratelimit/login.go:117-130 | Exactly the two keys are forgotten |
| LoginLimiter.Limiter.Sweep | apps/api/internal/ratelimit/login.go:250-270 | Exactly the expired entries go |
| LoginLimiter.Limiter.EnsureCapacity | apps/api/internal/ratelimit/login.go:208-241 | Room is made by dropping the expired entries and, only if that is not enough, the longest unseen unlocked entry, or the longest unseen one when all are locked |
| LoginLimiter.Limiter.ComputeBackoff | apps/api/internal/ratelimit/login.go:188-203 | The loop computes the lock the specification uses, wrap-around included |
| LimiterRuns.StreakMeaning | apps/api/internal/ratelimit/login.go:164-184 | The failures counted are the longest run of latest ones without an idle gap over the window |
| LimiterRuns.ReachableAgrees | apps/api/internal/ratelimit/login.go:164-270 | In every state reached without eviction, whatever the cap, each table holds for each key exactly what the log of its failures prescribes, or nothing when that has expired |
| LimiterRuns.AllowRefinesLog | apps/api/internal/ratelimit/login.go:75-203 | In every run that has evicted nothing so far, however many keys have failed, Allow denies exactly while the failure log implies a lock, and RetryIn is the rest of it |
| LimiterRuns.OtherKeysDoNotMatter | apps/api/internal/ratelimit/login.go:75-203 | Two runs without eviction, of whatever logs, give the same answer wherever the failures of the two keys asked about are the same: other users and addresses cannot be told from the answers |
| LimiterRuns.FewKeysNeverEvict | apps/api/internal/ratelimit/login.go:208-241 | While no more keys have failed than MaxEntries nothing is ever evicted |
| LimiterSweeps.SweepingIsInvisible | apps/api/internal/ratelimit/login.go:208-270 | With the cap active and ties broken either way: for every run with sweeps at arbitrary moments there is one run without any that gives every caller the same answer at every moment of the whole run, and conversely |
| LimiterLocks.CapOverRuns | apps/api/internal/ratelimit/login.go:164-241 | Over every run neither table exceeds MaxEntries |
| LimiterLocks.EntriesAreGood | apps/api/internal/ratelimit/login.go:164-203 | Every entry of every run holds the lock that its own failure count and last failure give, evictions or not |
| LimiterLocks.ComboKeyInjective | apps/api/internal/ratelimit/login.go:99-130 | Combined keys of address buckets without an '@' determine user name and bucket, whatever the user name contains |
| LimiterLocks.OtherBucketNeverStricter | apps/api/internal/ratelimit/login.go:99-114 | A failure never denies or prolongs anything for another bucket whose combined key differs |
| LimiterLocks.ParsedBucketsAreIsolated | apps/api/internal/ratelimit/login.go:99-114 | So between parsed addresses, which contain no '@', for all user names |
| LimiterLocks.StricterExactly | apps/api/internal/ratelimit/login.go:99-114 | Some run makes an answer about another bucket stricter by such a failure exactly when the two combined keys are equal |
| LimiterLocks.UnparsedBucketCollides | apps/api/internal/ratelimit/login.go:274-288 | At the limiter's interface: with an address that is used unparsed and contains an '@', failures from another bucket lock a user of this one out: the run, for all options. The server passes socket addresses or parsed ones |
| LimiterLocks.ExtraFailureCanKeepALock | apps/api/internal/ratelimit/login.go:208-241 | With eviction, two runs that differ by one failure of another bucket, the longer of which denies what the shorter allows, although LockoutMax is within the window |
| LimiterLocks.LockShortenedExactly | apps/api/internal/ratelimit/login.go:164-184 | In every run a failure shortens a key's active lock exactly when it is a failure of that key, the streak has lapsed, and the failure alone does not lock for as long |
| LimiterLocks.LockNeverShortened | apps/api/internal/ratelimit/login.go:164-184 | With LockoutMax <= FailureWindow no failure in any run leaves an entry with an earlier end of its active lock; it can only be evicted |
| LimiterLocks.ShorteningPossibleExactly | apps/api/internal/ratelimit/login.go:164-184 | Some run shortens an active lock exactly when LockoutMax exceeds the window, by more than the first lock if one failure already locks; the run is the least burst that reaches LockoutMax and one failure just after the window |
| RedisLimiter.RedisKeys.Fail | apps/api/internal/ratelimit/redis.go:76-139 | The script's steps leave the hash that the bump specification gives, with its TTL |
| RedisLimiter.SameBackoff | apps/api/internal/ratelimit/redis.go:103-139 | The Lua doubling and the Go doubling give the same lock |
| RedisLimiter.TtlBoundaryExactly | apps/api/internal/ratelimit/redis.go:103-139 | A further failure leaves the hash the failure log prescribes exactly unless it falls on the instant an unlocked hash's TTL ends |
| RedisLimiter.RedisMatchesMemory | apps/api/internal/ratelimit/redis.go:76-139 | Over every run at whole seconds that has evicted nothing, with the same positive settings and no failure at the instant an unlocked hash's TTL ends, both limiters answer every Allow alike |
| ProviderNames.CanonicalListIsCanonical | apps/api/internal/policy/policy.go:498-522 | Normalization yields a strictly sorted list of exactly the trimmed lower-case forms, blanks dropped |
| ProviderNames.CanonicalListFixed | apps/api/internal/policy/policy.go:498-522 | A canonical list is left alone |
| ProviderNames.Clean | apps/api/internal/policy/policy.go:498-522 | The loop of Normalize computes that list before sorting |
| StoragePolicies.NormalizeIdempotent | apps/api/internal/policy/policy.go:498-522 | Normalizing twice is normalizing once |
| StoragePolicies.ValidMeaning | apps/api/internal/policy/policy.go:354-386 | A policy is accepted exactly when its flags are coherent and its list is absent, the wildcard alone, or 1 to 64 DNS-1123 names |
| StoragePolicies.LeqAntisymmetric | apps/api/internal/policy/policy.go:498-539 | Valid policies that permit the same have the same normal form |
| StoragePolicies.IntersectWithinCeiling | apps/api/internal/policy/policy.go:388-421 | Whatever is requested, even invalid, the effective policy stays within the ceiling with coherent flags |
| StoragePolicies.IntersectIsMeet | apps/api/internal/policy/policy.go:388-421 | For a valid request the effective policy is valid and the greatest one below both request and ceiling |
| StoragePolicies.IntersectIdempotent | apps/api/internal/policy/policy.go:388-421 | Cutting to the ceiling twice is cutting once |
| StoragePolicies.IntersectMonotone | apps/api/internal/policy/policy.go:388-421 | A larger request under a larger ceiling has a larger effective policy |
| StoragePolicies.IntersectExact | apps/api/internal/policy/policy.go:388-441 | The effective policy is the normalized request exactly when there are no ceiling violations |
| StoragePolicies.ProviderScopeBroadens | apps/api/internal/policy/http.go:548-565 | The method that fills a local set decides the scope test |
| StoragePolicies.BroadensExactly | apps/api/internal/policy/http.go:537-565 | For valid policies the broadening test fires exactly when the request permits a flag or a provider that the current policy does not, the wildcard against any list included |
| StoragePolicies.BroadeningAddsProvider | apps/api/internal/policy/http.go:537-565 | A broadening without new flags permits some concrete DNS-1123 provider that was not permitted |
| PolicyProtocol.Manager.Observe | apps/api/internal/policy/policy.go:182-221 | An observed object yields its request cut to the ceiling, or the fail-closed snapshot when it is invalid |
| PolicyProtocol.ObservedIsSafe | apps/api/internal/policy/policy.go:182-263 | Every observed snapshot is valid, within the ceiling, and all false when the source is unavailable |
| PolicyProtocol.ObservedIsPlannable | apps/api/internal/policy/policy.go:182-221 | Observing a valid object gives a snapshot with its version, generation, author and normalized policy, not stale, that permits exactly what object and ceiling both do |
| PolicyProtocol.SnapshotsAreSafe | apps/api/internal/policy/policy.go:112-263 | Every snapshot of every run, the first one included, stays within the ceiling, is all false when the source is unavailable, and is valid; only a static policy that was not valid to begin with may not be |
| PolicyProtocol.StaticRunWritesNothing | apps/api/internal/policy/policy.go:135-149 | Where the runtime policy is not enabled, every run keeps the first snapshot and admits and writes nothing |
| PolicyProtocol.NothingUntilObserved | apps/api/internal/policy/policy.go:112-149 | Where it is enabled, every run permits, admits and writes nothing until an object was observed |
| PolicyProtocol.InstalledIsInForce | apps/api/internal/policy/policy.go:135-149 | Where it is not, a valid installed policy permits exactly what it and the ceiling both do |
| StoragePolicies.StaticPolicyIsValid | apps/api/internal/app/app.go:311-318 | The static policy that the settings give is valid whatever they are |
| PolicyProtocol.RunKeepsInv | apps/api/internal/policy/http.go:180-259 | Over runs of plans, concurrent applies, outside updates and deletions, observations and fail-closed steps, every admitted apply and every write carries a valid confirmation for its version |
| PolicyProtocol.WritesAreConfirmed | apps/api/internal/policy/http.go:180-457 | Each step adds at most one write, over the version stored at that moment, and makes it the stored one; the object then stored is the normalized policy requested, in the requester's name, one generation on; the challenge was unexpired when the request was admitted and issued to the same user for the same normalized policy and plan; no two writes ever replace the same version |
| PolicyProtocol.GrowthNeedsPhrases | apps/api/internal/policy/http.go:396-420 | In every run, if the object a write stored permits anything that the object it replaced did not permit under the ceiling, the phrases were given, and the pool phrase if it newly permits deleting pools; the stored policy is valid and within the ceiling |
| PolicyProtocol.OnlyWritesChangeThePolicy | apps/api/internal/policy/http.go:180-259 | No step of the server but a logged write changes the stored policy object |
| PolicyProtocol.AdmittedExactly | apps/api/internal/policy/http.go:396-420 | A request with the challenge of its plan is admitted exactly until the challenge expires, with the three confirmations if the policy grows and the pool phrase if it newly permits deleting pools |
| PolicyProtocol.UndisturbedApplyStores | apps/api/internal/policy/http.go:180-353 | From every reachable state with the stored object observed, a valid policy within the ceiling can be planned, confirmed and applied: the run ends with exactly it stored |
| PolicyReplay.RetryIsReplayed | apps/api/internal/policy/http.go:187-199 | Over runs: once its write is observed, the same request sent again is stale, so it writes nothing, and is answered as done exactly until its challenge expires |
| PolicyReplay.ReplayIsHonest | apps/api/internal/policy/http.go:355-379 | Whoever is answered so has the requested policy in force: the observed object has it, the same user changed it last, and the same user had planned it with the phrases the plan called for |
| RelationshipGraph.ReachIsDistance | apps/api/internal/storage/context_engine.go:635-663 | The level sets of the searches are exactly the nodes reached by walks of at most that many edges |
| RelationshipGraph.ExpandGraph | apps/api/internal/storage/context_engine.go:635-663 | Expansion returns the nodes within some undirected distance r <= depth, with r = depth unless nothing more is reachable or 200 nodes are held, in whatever order edges come |
| RelationshipGraph.InducedEdges | apps/api/internal/storage/context_engine.go:589-633 | The edges shown are exactly those between visible nodes |
| ImpactSearch.FoundIsShortest | apps/api/internal/storage/context_engine.go:665-773 | A reported path is a real, repeat-free path from the target and no walk to the resource is shorter |
| ImpactSearch.SearchAnswers | apps/api/internal/storage/context_engine.go:665-773 | Whatever the order in which each visit meets the edges: every result has a real shortest path whose weakest edge is its confidence, no node twice; unless cut off at the bound the results are exactly the nodes at distance 1 to depth |
| ImpactSearch.Search | apps/api/internal/storage/context_engine.go:665-773 | The nested loops are such a search, for some order |
| ImpactSearch.AnalyzeImpact | apps/api/internal/storage/context_engine.go:665-773 | The result is marked incomplete exactly when the graph was or more than 500 resources count within the depth on either side; unless it is, the confirmed, potential and unknown lists together hold exactly the dependents within the depth, each once, and BackedBy exactly what backs the target |
| ImpactSearch.CutOffExactly | apps/api/internal/storage/context_engine.go:665-773 | A search is reported as cut off exactly when 500 resources or more besides the target are within the depth, whatever the order |
| ImpactConfidence.MayReportExactly | apps/api/internal/storage/context_engine.go:686-697 | Unless the bound cuts it off, the search can report a resource with a path and confidence, for some order, exactly when that is a real shortest path with its weakest confidence |
| ImpactConfidence.OrderFreeExactly | apps/api/internal/storage/context_engine.go:686-697 | The confidence reported of every resource is independent of the order exactly when nodes can be marked so that every edge from one distance to the next gives its node's mark |
| ImpactConfidence.MarkIsReported | apps/api/internal/storage/context_engine.go:686-697 | The confidence reported is then the mark, the bound reached or not |
| ImpactOrder.BuildOrderFree | apps/api/internal/storage/context_engine.go:163-773 | Build, the engine's ids and search together: for every inventory whose references and lists are of the adapters' kinds and whose operations have ids of their own, no confidence reported for any target, depth and direction depends on the order in which Go visits the edges, the bound reached or not |
| ImpactOrder.BuiltGraphAgrees | apps/api/internal/storage/context_engine.go:163-697 | In such a graph no two shortest paths to a resource differ in their weakest confidence |
| ImpactOrder.DependentStep | apps/api/internal/storage/context_engine.go:665-697 | Towards dependents, kind and distance alone decide the confidence: claims come at most one step apart, and over an owner it takes two |
| ImpactOrder.BackingStep | apps/api/internal/storage/context_engine.go:698-773 | Towards what backs the target likewise |
| ImpactTie.TieInBuiltGraph | apps/api/internal/storage/context_engine.go:163-697 | Why the references matter: if one named a machine, which no adapter's does, a pod of the built graph could be reported as certain or as derived by the order of iteration |
| VolumeImpact.AnalyzeVolume | apps/api/internal/storage/context_engine.go:163-786 | Build, the engine's own ids and search together: unless marked incomplete, the analysis of a volume names every claim bound to it, every pod using such a claim, every owner of such a pod, every attachment, every snapshot of it or its claims, and every operation on it or its claims, as far as the depth allows |
| VolumeImpact.DependentsAreNear | apps/api/internal/storage/context_engine.go:366-482 | Claims, attachments, snapshots and operations of a volume are one dependency step away from it, the claims' pods, snapshots and operations two, the pods' owners three |
| PoolImpact.AnalyzePool | apps/api/internal/storage/context_engine.go:163-786 | Build, the engine's own ids and search together: unless marked incomplete, the analysis of a listed pool names the images in it, the operations on it, the volumes backed by those images, and whatever depends on those volumes, claims, pods, owners, attachments, snapshots and operations, as far as the depth allows |
| PoolImpact.PoolDependentsAreNear | apps/api/internal/storage/context_engine.go:318-482 | Images of a pool and operations on it are one dependency step away from it, the volumes they back two, and what depends on a volume two more than it is from the volume |
| GraphIds.CanonicalIDExactly | apps/api/internal/storage/context_engine.go:73-128 | Two nodes get the same id exactly when their kinds have the same normal form and namespace and name agree, strings encoded in UTF-8 (RFC 3629, section 3) |
| GraphIds.CanonicalIDSeparates | apps/api/internal/storage/context_engine.go:73-128 | No claim, pod, owner, attachment, snapshot or operation has the id of a volume, whatever the names |
| GraphIds.ItemsToldApart | apps/api/internal/storage/context_engine.go:73-128 | The engine's ids of all nodes that such an inventory can give rise to are different |
| GraphBuild.Build.AddClaim | apps/api/internal/storage/context_engine.go:366-405 | A claim of the provider is bound to its volume when the graph has it, each of its pods uses it, and each owner uses its pod; every edge added from a claim, pod or owner is one that this claim gives rise to |
| GraphBuild.Build.AddAttachment | apps/api/internal/storage/context_engine.go:407-421 | The edges added are exactly those from an attachment of the provider to its volume, when the graph has it, and to its machine |
| GraphBuild.BuildGraph | apps/api/internal/storage/context_engine.go:163-502 | Whatever the inventory, every edge of the built graph joins two different nodes of the graph and is one that the inventory gives rise to; every driver, class, volume, image, subvolume, claim, pod, owner, attachment, snapshot and operation of the provider is joined to what it uses, is of or belongs to; no edge leads from a claim, pod or owner but where a claim says; the pool-to-OSD edges are exactly the first 2000 pairs of the listed pools and OSDs; and the graph is marked incomplete exactly when the inventory has a gap or that bound cuts one pool's OSDs |
| GraphJoins.MemberIsJoined | apps/api/internal/storage/context_engine.go:423-455 | In every built graph each image is joined to the listed pool it names and each subvolume to its filesystem, whether it is listed or only known from a volume |
| GraphJoins.VolumeIsBacked | apps/api/internal/storage/context_engine.go:318-364 | Each volume is joined to the image that backs it, listed or not |
| GraphJoins.ClassesAreJoined | apps/api/internal/storage/context_engine.go:199-405 | Each driver is joined to the configured provider, each class to its driver, each volume and each claim to its class |
| GraphJoins.ClaimIsJoined | apps/api/internal/storage/context_engine.go:366-405 | Each claim is joined to its volume, each of its pods to the claim and to the machine it runs on, and pod and owner to each other |
| GraphJoins.AttachmentIsJoined | apps/api/internal/storage/context_engine.go:407-421 | Each attachment is joined to its volume and to its machine |
| GraphJoins.ListedExactly | apps/api/internal/storage/context_engine.go:270-316 | The pools and OSDs that the topology joins are exactly those that readable lists have with an id |
| GraphJoins.GapsExactly | apps/api/internal/storage/context_engine.go:230-502 | The inventory has a gap exactly when a resource list, the snapshots or the operations could not be read, a volume refers to a backend that is not listed, or a Ceph volume to none |
| GraphBuild.Build.AddTopology | apps/api/internal/storage/context_engine.go:484-500 | The potential pool-to-OSD edges added are exactly the first 2000 pairs; incompleteness is reported exactly when the bound falls within one pool's OSDs |
| GraphBuild.JoinedExactly | apps/api/internal/storage/context_engine.go:484-500 | Among distinct pools and OSDs a pair is joined exactly when its place in the loops is below the bound |
| GraphTopology.BuildHiding | apps/api/internal/storage/context_engine.go:270-500 | For every inventory whose lists name no pool or OSD twice: the built graph lacks a pool-to-OSD edge and is not marked incomplete exactly when everything could be read, the listed pools and OSDs make more than 2000 pairs, and 2000 is a multiple of the number of OSDs |
| GraphTopology.MissesPairExactly | apps/api/internal/storage/context_engine.go:484-500 | Some listed pool is not joined to some listed OSD exactly when they make more than 2000 pairs |
| GraphTopology.HiddenExample | apps/api/internal/storage/context_engine.go:270-500 | 51 pools and 40 OSDs: the built graph lacks pairs and is not marked incomplete |
| Identities.DecodeEncode | apps/api/internal/storage/context_engine.go:73-85 | Unpadded base64url (RFC 4648, sections 3.2 and 5) is decoded back to the bytes encoded |
| Identities.GraphIDInjective | apps/api/internal/storage/context_engine.go:73-85 | Two graph IDs are equal exactly when normalized kind, provider, namespace and name are |
| GraphKinds.NormalizeTwice | apps/api/internal/storage/context_engine.go:87-128 | Kind normalization is idempotent for every input |
| GraphKinds.NormalizedKindSameID | apps/api/internal/storage/context_engine.go:73-128 | An ID computed from a normalized kind is the ID of the original kind |
| Identities.GenericProviderID | apps/api/internal/storage/registry.go:273-295 | The loop over the driver name builds the slug, a dash and the digest |
| Identities.GenericProviderIDIsDns | apps/api/internal/storage/registry.go:273-295 | The result has at most 125 characters of a-z, 0-9 and dash and no dash at an edge |
| Identities.SlugBaseExactly | apps/api/internal/storage/registry.go:273-295 | The name in the id has the driver's letters and digits in their order, as many as fit, with single dashes between them; a driver without any is called driver |
| Identities.GenericProviderIDAccepted | apps/api/internal/policy/policy.go:354-386 | So policy validation accepts it as a provider |
| DescriptorRegistry.Registry.Register | apps/api/internal/storage/registry.go:65-94 | Registration succeeds exactly for a new non-blank ID with unclaimed drivers, leaves every driver with one owner, and changes nothing on failure |
| DescriptorRegistry.Registry.DescriptorSnapshot | apps/api/internal/storage/registry.go:131-173 | One call decides, under the lock, between a warm answer with or without a background refresh, waiting, and computing, as WarmCallsExactly and ColdCallsExactly say over runs |
| DescriptorRegistry.Registry.FinishRefresh | apps/api/internal/storage/registry.go:181-194 | The locked finish has the effect that the runs use |
| DescriptorRegistry.RunKeepsInv | apps/api/internal/storage/registry.go:103-194 | In every reachable state the flag, the channel and exactly one refresher go together, every waiter's channel is current or closed, and a warm answer is marked stale exactly when it is for another key or as old as the TTL |
| DescriptorRegistry.WarmCallsExactly | apps/api/internal/storage/registry.go:131-147 | In every run a call with something cached is answered with it at once; if that is stale a refresh is in flight afterwards, the caller's own under its own key if there was none before; if it is not stale nothing is started |
| DescriptorRegistry.ColdCallsExactly | apps/api/internal/storage/registry.go:148-173 | With nothing cached the caller waits for the refresh in flight, or, if there is none, computes itself under its own key |
| DescriptorRegistry.FinishedIsServed | apps/api/internal/storage/registry.go:181-194 | A refresh that found something is what later calls are answered with, filed under its key at the moment it finished, and fresh for its key for the TTL |
| DescriptorRegistry.FinishIsSafe | apps/api/internal/storage/registry.go:181-194 | Each finish closes a channel that was open and wakes every waiter, and an empty refresh never replaces a cache |
| DescriptorRegistry.QuietInvalidationIsFinal | apps/api/internal/storage/registry.go:103-109 | After an invalidation with no refresh in flight nothing computed before it is cached again |
| DescriptorRegistry.InFlightRefreshUndoesInvalidation | apps/api/internal/storage/registry.go:181-194 | From every reachable state with a refresh in flight, invalidating and finishing puts older descriptors back, marked fresh |
| DescriptorRegistry.LateAnswerHasOwnKeyExactly | apps/api/internal/storage/registry.go:148-173 | In every run a caller that waited or refreshed for itself and is not told stale gets descriptors for its own drivers exactly when the cache is filed under its key by then |
| DescriptorRegistry.WaiterIsAnsweredByFlight | apps/api/internal/storage/registry.go:148-158 | A waiter is woken by the refresh in flight when it called. If none comes back with anything between that one's finish and its wake-up, it is told stale exactly when that refresh was empty or the cache was dropped since, and otherwise gets that refresh's result, for its own drivers exactly when the refresh was started for them |
| DescriptorRegistry.ComputerIsAnsweredByItself | apps/api/internal/storage/registry.go:160-173 | A caller that refreshes for itself gets, under the same condition, its own result for its own drivers |
| DescriptorRegistry.WaiterMayGetOtherKey | apps/api/internal/storage/registry.go:148-158 | A run in which the refresh in flight was for other drivers and the waiter gets their snapshot marked not stale |
| UserStore.Draft.Change | apps/api/internal/auth/users.go:689-718 | One mutation, edited in place on the draft, gives exactly the document or the error of the mutation the invariants are proved about |
| IdentityEffects.ChangePasswordExactly | apps/api/internal/auth/users.go:535-572 | The password changes exactly with the current one of an enabled account, to an acceptable one that is neither it nor remembered; refused as bad credentials exactly otherwise than by the new password; the new hash, the trimmed history and one higher version are all that changes |
| IdentityEffects.ChangeEmailExactly | apps/api/internal/auth/users.go:574-595 | The address changes exactly with the current password, to none or to a well-formed one nobody else has; a malformed one is refused first, then a wrong password |
| IdentityEffects.BeginMfaExactly | apps/api/internal/auth/users.go:603-631 | Enrollment begins exactly with the current password where the policy has second factors, and changes the pending secret and the recovery codes only |
| IdentityEffects.ConfirmMfaExactly | apps/api/internal/auth/users.go:633-649 | It is confirmed exactly with a pending secret and a valid code, the secret then being the account's |
| IdentityEffects.DisableMfaExactly | apps/api/internal/auth/users.go:651-671 | The second factor goes exactly when there is one that the policy does not require, with the current password and a valid code, in that order of refusal, and takes secrets and codes along |
| IdentityEffects.RecoveryCodeExactly | apps/api/internal/auth/users.go:299-334 | A recovery code is accepted exactly from an enabled account with a second factor that holds it, and one copy goes |
| IdentityEffects.CreateExactly | apps/api/internal/auth/users.go:434-467 | An account is created exactly with a usable free name, no address or a well-formed free one, and an acceptable password, as asked for, enabled, without second factor, at version 1 |
| IdentityEffects.UpdateAdminExactly | apps/api/internal/auth/users.go:478-516 | An administrator's update succeeds exactly for an account, an allowed address, an allowed password, and unless it is refused as taking the last admin; given fields change, a reset drops the factor, the version rises |
| IdentityEffects.EmailProblemExactly | apps/api/internal/auth/users.go:478-497 | Its address is refused exactly when it is malformed or another account has it |
| IdentityEffects.DeleteExactly | apps/api/internal/auth/users.go:518-533 | A deletion succeeds exactly for an account that is not the last active administrator, and the account is gone |
| IdentityEffects.RehashExactly | apps/api/internal/auth/users.go:285-295 | A stored hash is replaced by one of the same password, only while it is the expected one |
| IdentityEffects.SetPolicyExactly | apps/api/internal/auth/users.go:410-425 | A policy is stored in its normal form and touches accounts only to end sessions of those that now need a factor |
| IdentityEffects.PasswordAcceptedExactly | apps/api/internal/auth/password.go:90-121 | A password is acceptable exactly when its length is within the policy, it has no NUL, and, if common ones are blocked, it is none and contains neither the user name nor the local part of the address |
| IdentityEffects.NormalizedPolicyExactly | apps/api/internal/auth/users.go:44-73 | Normalizing brings every policy within the limits, keeps those that are, and is idempotent |
| UserStore.Draft.Create | apps/api/internal/auth/users.go:434-467 | Creation agrees with the specification, its checks in the source's order |
| UserStore.Draft.ChangeEmail | apps/api/internal/auth/users.go:574-595 | So does the e-mail change |
| UserStore.Draft.DisableMfa | apps/api/internal/auth/users.go:651-671 | And the end of MFA, refused while the policy requires it |
| UserStore.Draft.UpdateAdmin | apps/api/internal/auth/users.go:478-516 | The in-place edit of a user, checks in the source's order, agrees with the mutation specification in result and error |
| UserStore.Draft.Replace | apps/api/internal/auth/users.go:548-572 | The in-place password replacement agrees with the specification, reuse loop and history trim included |
| UserStore.Draft.Delete | apps/api/internal/auth/users.go:518-533 | The deletion loop agrees with the specification |
| UserStore.Draft.SpendRecoveryCode | apps/api/internal/auth/users.go:315-329 | The loop removes the first matching code only |
| UserStore.Draft.UpdatePolicy | apps/api/internal/auth/users.go:410-425 | Sessions of accounts that now need a second factor are ended exactly when the mode changes |
| UserStore.AppliedIsFound | apps/api/internal/auth/users.go:726-741 | A replica's map holds exactly the document's accounts when the identity invariants hold |
| UserStore.Replica.ApplyDocument | apps/api/internal/auth/users.go:726-741 | The loop builds that map |
| UserStore.Replica.ValidateSession | apps/api/internal/auth/users.go:355-363 | A session is accepted exactly when the applied document has the enabled account with the same role and version |
| StaleReplicas.AcceptedAgainExactly | apps/api/internal/auth/users.go:248-270 | In every run of loads, commits and applies on a replica, applying a document makes it accept an ended session exactly when that document was read before the step that ended it, and accepts it |
| StaleReplicas.RefusedForGood | apps/api/internal/auth/users.go:248-270 | As long as no document is applied after a newer one, a replica that has refused an ended session refuses it for good |
| StaleReplicas.OvertakenLoad | apps/api/internal/auth/users.go:689-724 | The run in which a mutation overtakes a load, for every document, session and step that ends it: the replica refuses the session and accepts it again |
| IdentityInvariants.ApplyKeepsUsersOK | apps/api/internal/auth/users.go:410-753 | Every successful mutation keeps usable passwords, distinct trimmed names, distinct folded e-mail addresses and an active admin |
| IdentityInvariants.DemotionRefusedExactly | apps/api/internal/auth/users.go:478-516 | An update by an administrator, whatever it changes, is refused as taking the last admin exactly when it takes an active admin away and at most one other remains, one too many |
| IdentityInvariants.DeletionRefusedExactly | apps/api/internal/auth/users.go:518-533 | Deleting one is refused exactly when no other remains |
| IdentityInvariants.VersionStep | apps/api/internal/auth/users.go:410-671 | A mutation never lowers an account's session version and raises it if it ends its sessions: one of the five revoking operations, or a change of the MFA mode after which the account needs a factor and has none |
| IdentityInvariants.OldSessionsStayRevoked | apps/api/internal/auth/users.go:347-425 | In a store whose accounts were created or seeded, over runs without deletion of the name, a session issued before an admin update, password, e-mail, MFA confirm or MFA disable step, or before a mode change that the account does not meet, is never valid against a later document |
| IdentityInvariants.RevokedFromVersionTwo | apps/api/internal/auth/users.go:347-363 | In any store the same from the step on that takes the stored version to 2 |
| IdentityInvariants.VersionsStayPositive | apps/api/internal/auth/users.go:434-467 | Session versions stay positive over every run from a document where they are |
| IdentityInvariants.FirstChangeRevokesExactly | apps/api/internal/auth/users.go:733-738 | Each of the five revoking operations ends a valid session exactly when it takes the stored version to 2 or takes the role or the account away; versions below 1 are applied as 1 |
| IdentityInvariants.PolicyRevokesExactly | apps/api/internal/auth/users.go:410-425 | A policy change ends a valid session exactly when it changes the mode, the account now needs a factor and has none, and its stored version was positive |
| IdentityInvariants.RecreatedAccountAcceptsOldSessionExactly | apps/api/internal/auth/users.go:434-533 | After delete and create of a name a session of the old account is valid exactly when it was version 1 with the same role |
| IdentityHistories.OthersUntouched | apps/api/internal/auth/users.go:434-687 | A mutation of one account leaves every other account exactly as it was |
| IdentityHistories.PasswordStep | apps/api/internal/auth/users.go:535-572 | Each mutation replaces the password by one not used lately, or leaves password and history alone, the legacy rehash included |
| IdentityHistories.PasswordsStayDistinct | apps/api/internal/auth/users.go:285-572 | Under a constant history limit H any H + 2 consecutive passwords of an account are pairwise distinct and the stored history never exceeds H |
| IdentityHistories.FreshAccountRecorded | apps/api/internal/auth/users.go:434-467 | A created account starts such a history with its one password |
| IdentityHistories.ReuseRefusedExactly | apps/api/internal/auth/users.go:548-556 | An otherwise acceptable password is refused as reuse exactly when it is among the last H + 1 |
| RecoveryCodes.RunKeepsInv | apps/api/internal/auth/kubernetes_identity.go:58-93 | Over racing replicas the stored documents follow each other by whole mutations, and the log holds each call at most once |
| RecoveryCodes.StoredDocumentsKeepUsersOK | apps/api/internal/auth/kubernetes_identity.go:58-93 | Every document ever stored keeps the identity invariants |
| RecoveryCodes.RefusedCallsLeaveNoTrace | apps/api/internal/auth/users.go:689-718 | A refused call never changed the store and a successful one changed it once |
| RecoveryCodes.CodesStep | apps/api/internal/auth/users.go:299-334 | Copies of a recovery code come only from enrollment, and each use removes one |
| RecoveryCodes.RetriedFlagIsHarmless | apps/api/internal/auth/users.go:314-334 | Although the used flag survives retries, a login succeeds exactly when its call stored a document with the code spent |
| RecoveryCodes.LoginsByCodeBounded | apps/api/internal/auth/users.go:299-334 | Successful logins with a code plus copies left never exceed the copies at first plus those issued |
| RecoveryCodes.CodeWorksOnce | apps/api/internal/auth/users.go:299-334 | A code issued once lets at most one login through over all replicas |
| AuditStore.Itoa | apps/api/internal/audit/store.go:285-297 | The digits written backwards into the buffer are the decimal notation, within 20 places |
| AuditStore.GeneratedIdsDiffer | apps/api/internal/audit/store.go:152-154 | Generated identifiers are equal exactly for the same time stamp and number |
| AuditStore.GeneratedIdsOK | apps/api/internal/audit/store.go:150-154 | Identifiers left to the store are all different |
| AuditStore.Store.Append | apps/api/internal/audit/store.go:131-176 | The ring always holds the last max accepted events in order; a failed file write is reported although the event is stored |
| AuditStore.Store.List | apps/api/internal/audit/store.go:188-234 | The scanning loops return the page of the specification over the last max accepted events |
| AuditStore.PageExactly | apps/api/internal/audit/store.go:188-234 | A page has at most limit events, a run of the matching ones from its start on; it names a next cursor exactly when more remain, its own last event |
| AuditStore.FiltersExactly | apps/api/internal/audit/store.go:236-260 | The events filtered are exactly the matching ones, newest first; each set field of the query must agree, the instants inclusive |
| AuditStore.CompletedExactly | apps/api/internal/audit/store.go:140-156 | An event given without identifier or instant gets the store's, everything else is kept |
| AuditStore.FilteredAround | apps/api/internal/audit/store.go:199-206 | A matching event comes after all newer matching events and before all older ones |
| AuditStore.EvictedCursorRestarts | apps/api/internal/audit/store.go:207-215 | The cursor is honoured exactly when a stored matching event carries it; otherwise the page is the first page |
| AuditStore.WalkIsExact | apps/api/internal/audit/store.go:188-234 | Following NextCursor with appends in between returns exactly the matching events that were there at the start and not evicted by the last page, newest first, once, as long as each cursor event is still stored |

## Left out

- ChangeBroker.NoInvalidationLost: assumes NUL-free names, which Kubernetes names and Highland's own event types are, and no Highland publish that drops a key of the change before a flush takes it; without either the claim is false, as `ChangeFrames.NulCollisionLosesScope` and `ChangeBroker.LaterPublishLosesKeys` show.
- LimiterRuns.AllowRefinesLog: once an unexpired entry was evicted its failures are forgotten and the log no longer decides; what eviction may do is stated by `LoginLimiter.BumpTouchesOthersOnlyByEviction`, `LimiterLocks.OtherBucketNeverStricter` and `LimiterLocks.ExtraFailureCanKeepALock`.
- LimiterLocks.LockShortenedExactly: this lemma and the others about locks take a LockoutMax from 1 to 2^62 nanoseconds, about 146 years; for any other value `LoginLimiter.ClosedFormExactly` and `LoginLimiter.DoubledUnbounded` say when the doubling wraps, and a wrapped lock need not be monotone.
- RedisLimiter.RedisMatchesMemory: whole-second instants only, because the scripts read the clock in seconds.
- AuditStore.WalkIsExact: assumes distinct identifiers, which `GeneratedIdsOK` gives when callers leave them to the store; a caller can pass its own.
- PolicyProtocol.WritesAreConfirmed: signatures are unforgeable and the plan hash is the plan itself; the number of active operations in a plan is not part of it.
- IdentityHistories.PasswordsStayDistinct: a hash is the password it matches, so two passwords with one hash do not exist.
- ImpactConfidence.OrderFreeExactly: only for searches that the bound on results does not cut off; which resources a cut-off search reports depends on the order as well.
- ImpactTie.TieInBuiltGraph: no adapter produces its reference to a machine; it shows why `ImpactOrder.BuildOrderFree` asks what references name.
- ImpactOrder.BuildOrderFree: for a provider whose references named other kinds, `ImpactConfidence.OrderFreeExactly` decides on the finished graph; which kinds could be allowed besides is not stated.
- GraphBuild.BuildGraph: node attributes, evidence, freshness and conditions are not modelled; node ids are kind, namespace and name until they are written down, edges are keyed by type, from and to and claims by namespace and name instead of the joined strings, and kinds are values of an enumeration.
- RelationshipGraph.ExpandGraph: pagination, filters and the order of the page are not modelled.
- Identities.GenericProviderID: the SHA-256 digest is a parameter.
- LimiterLocks.ExtraFailureCanKeepALock: one set of options, with MaxEntries 2; for which options such a pair of runs exists is not stated.
- GraphTopology.BuildHiding: with a pool or OSD listed twice, a missing pair may be there by its other place.
- RecoveryCodes.RunKeepsInv: the Secret is written only by replicas; edits by hand and the initial import are not steps.
- The single-replica file mode of the user store, its JSON, and the encryption of TOTP secrets.
- TOTP itself: whether a code is valid at an instant is a parameter.
- The address parsing inside validEmail and the bucket computed by ipKey: the former is left to its length and character tests, the latter is a parameter.
- Unicode letter case and space: ASCII only.
- Options.Enabled, context errors and Close of the limiters, and the outage policy of the Redis limiter.
- User names are lower-cased and hashed in Redis keys; the model names keys by their parts.
- The history endpoint and the status update of the policy object.
- Drift reports: recordDrift and pruneDrift would add an easy member; pruneDrift drops the first-seen times of other providers.
- Impact summaries, the ordering of impact lists, and the drivers and descriptors of providers.
- Secret detection and redaction of audit events: whether an event is acceptable is a parameter; the Postgres sink is not part of this model.
- HTTP handlers, middleware, metrics, informers, configuration and the web client, except that `__all__` makes a client refetch everything.
