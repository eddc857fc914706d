# IP proxy pool: verified models of its Redis state machines

This project models the parts of the proxy pool whose correctness rests on Redis keys that
many processes change at once, and proves properties of them over every run.

| files | part of the system |
|---|---|
| `OwnershipProtocol`, `OwnershipInvariant`, `OwnershipRuns`, `OwnershipTheorems`, `OwnershipVerdicts`, `OwnershipQueues`, `OwnershipReplies`, `OwnershipStore`, `OwnershipServer` | members check a lead in two rounds under leased jobs; success receipts correct verdicts late |
| `CycleIdentity` | the bytes hashed into the identity of a lead cycle |
| `Quota`, `QuotaStore`, `QuotaServer` | the sliding-window quota, restarts of Redis included |
| `PeerPolicy`, `PeerCache`, `PeerCacheRuns`, `PeerCacheSelection`, `PeerCacheSync`, `PeerCacheEffects`, `PeerCacheStore`, `PeerCacheServer` | the cache of proxies borrowed from a peer: fenced snapshots, failure suppression, receipts |
| `AlertMonitor`, `AlertDelivery` | the alert events of that cache |
| `Pool`, `PoolRuns`, `PoolLeases`, `PoolEdges`, `PoolEffects`, `PoolStore`, `PoolServer` | the record store of one domain: indexes, leases, maintenance |
| `Eviction`, `Selection`, `Paging`, `Rebuild` | its loops over many records, each against a plain reading of the data |
| `Scoring` | how probe results move the health of a proxy |
| `SortedSets`, `Scans` | optional values, sorted-set reads and hash scans |

Each Redis script or pipeline is a function from key space to key space, and a class method
runs the same script step by step over its fields and is proved to do what the function says.
Runs are sequences of script calls in any order by any number of clients; the theorems about
runs follow from invariants that every step keeps. The `Verdicts`, `Queues`, `Replies`, `Effects` and
`Delivery` modules say what each operation makes of the keys in plain terms, without the names of the
functions that compute it, and follow these effects through runs. The `Server` classes join stores and
runs: a server drives a store, and its `Valid()` says that the store's keys are the last state of the run
so far.

`dafny verify dfyconfig.toml` checks everything.

## Assumptions

- A Lua script or a transactional pipeline is one atomic step. `upsert_candidate`, a read followed
  by a pipeline, is one step too, and so is a whole capacity eviction in `PoolRuns`.
- The clock that a script sees never goes back within a run. In the peer cache only a selection and a
  failure report read the clock; a replacement may come with a time from before, as the synchronizer
  takes its time before it fetches (`peer_cache/sync.py:72`).
- Lease tokens, case identifiers, selection tokens and alert identifiers are fresh (UUIDs or random);
  a selection is also covered when a token repeats.
- Digests are injective: the fields are kept instead of the hash. `CycleIdentity` proves that the
  hashed bytes determine the fields.
- Floating-point numbers are reals. Times are whole milliseconds, seconds as reals, or ticks of a
  clock, as the part calls for.
- HSCAN visits every field once, in any order and any batches. Members of equal score in a sorted
  set may be read in any order, which includes the byte order that Redis uses.
- The 48 h expiry of the ownership keys lies beyond the run. In the quota and in the peer cache keys
  do run out: quota keys by their times, sync locks and receipts at any moment.

## Findings

Where the code does not meet the obvious property, the project keeps the code, shows an input that
breaks the property, and proves exactly when it holds or what is left.

- Opening a case and registering a success commute exactly if the entry time lies after the start
  of 1970 or in the future (`OpenAndSuccessCommute`). For an entry time at the epoch or before, the late
  correction is switched off by the guard `tonumber(ARGV[6]) > 0` at `reclaim_ownership/store.py:59`,
  while opening a case after the success is not (`EpochEntryBreaksTheOrder`).
- The uptime guard keeps the quota across restarts exactly if it is at least 61 s; the default is 65
  (`SafeExactlyFrom61Seconds`, `SixInAMinute`). 60 s is not enough, because the reported uptime is
  a difference of whole seconds.
- The branch of CLAIM_JOB that prunes dead jobs is never taken: queued jobs are always alive
  (`QueuedJobsAreAlive`).
- A capacity eviction leaves the priority index alone. It orphans no entry of that index exactly if,
  before it, every entry is leased or ranks above at least as many unleased records as are to go
  (`EvictionOrphansExactly`), and evictions are the only source of orphans (`OrphansComeFromEvictions`).
  Two fast proxies and a maximum of one make an orphan, which is then claimed without a record and comes
  back as due when it is released (`OrphanIsHandedOut`). A rebuild clears orphans (`RebuildIndexes`).
- Saving a record while it is leased makes it due and leased at once. Such an endpoint uses up a place
  of a claim's read, so a claim can come back empty although other work is due
  (`LeasedAndDueHidesOthers`). A claim misses work exactly if, in the order of what is due after its fast
  half, a leased endpoint stands among those it has room for and a free one after them
  (`MissesWorkExactlyIfBlocked`), which cannot happen while no endpoint is due and leased at once
  (`ClaimIsExhaustive`).

- The time named by a release can be forgotten: a sighting of the endpoint
  (`storage/repository.py:249-253`) or a rebuild sets a fast proxy's place in the priority index to the
  next check of its record, also when it was released until later (`SightingForgetsRelease`). A release
  holds its endpoint off exactly if it is no fast proxy whose next check comes earlier
  (`ReleaseHoldsOffExactly`); a completion always does (`CompletionHoldsOff`).

## Model

| member | source | states |
|---|---|---|
| `OwnershipStore.Store.OpenCase` | src/ip_proxy_pool/reclaim_ownership/lua.py:12-50 | opening a case step by step: replay, conflict, born pending with round-1 jobs and a deadline, or born internal under a timely receipt |
| `OwnershipStore.Store.ClaimJob` | src/ip_proxy_pool/reclaim_ownership/lua.py:52-73 | a claim leases the first due job whose lease has run out |
| `OwnershipStore.Store.SubmitResult` | src/ip_proxy_pool/reclaim_ownership/lua.py:75-152 | every refusal in its order, and the effects of error, found and absent, the second round included |
| `OwnershipStore.Store.ReapExpired` | src/ip_proxy_pool/reclaim_ownership/lua.py:154-175 | up to 100 expired cases become unconfirmed and lose their jobs |
| `OwnershipStore.Store.RegisterSuccess` | src/ip_proxy_pool/reclaim_ownership/store.py:31-80 | one receipt per cycle and event, and the late correction of the cycle's cases |
| `OwnershipRuns.ReachableIsGood` | src/ip_proxy_pool/reclaim_ownership/lua.py:12-175 | one invariant over cases, jobs, leases, results, deadlines and receipts holds in every state of every run of the five scripts |
| `OwnershipRuns.ExternalNeedsTwoFullRounds` | src/ip_proxy_pool/reclaim_ownership/lua.py:132-149 | an external case has an absent result of every snapshot member in both rounds, and each round-2 result was claimed at least 15 s after each round-1 result and 30 s after opening, although no script checks round order |
| `OwnershipRuns.QueuedExactlyWhenWanted` | src/ip_proxy_pool/reclaim_ownership/lua.py:41-47 | a job is queued exactly if its case is pending, its member is in the snapshot and has no result in that round, and the round is the first or the first is complete |
| `OwnershipRuns.PendingExactlyWhenQueued` | src/ip_proxy_pool/reclaim_ownership/lua.py:110-149 | a case with members is pending exactly if some job of it is queued, so none is stuck and none leaves jobs behind |
| `OwnershipInvariant.QueuedJobsAreAlive` | src/ip_proxy_pool/reclaim_ownership/lua.py:57-65 | the pruning branch of a claim is dead: no queued job is of a settled case or already answered |
| `OwnershipInvariant.ClaimTakesFirstFree` | src/ip_proxy_pool/reclaim_ownership/lua.py:56-70 | a claim takes the first due job that is not under a live lease, and comes back empty only if all it read are |
| `OwnershipInvariant.AcceptedExactlyUnderLiveLease` | src/ip_proxy_pool/reclaim_ownership/lua.py:80-109 | a submission is accepted exactly if it is well formed and new, its case pending, its slot open, and its token that of the unexpired lease |
| `OwnershipRuns.AcceptedSubmissionsAreFenced` | src/ip_proxy_pool/reclaim_ownership/lua.py:62-109 | an accepted submission comes from the latest claim of its slot, within that claim's 30 s |
| `OwnershipRuns.ClaimIsHonouredExactly` | src/ip_proxy_pool/reclaim_ownership/lua.py:105-109 | for an open slot, a submission under the token of its claim is accepted exactly if it comes within 30 s and the slot was neither given out again nor taken in since; else it is refused as stale and changes nothing |
| `OwnershipRuns.ResultHasItsAnswer` | src/ip_proxy_pool/reclaim_ownership/lua.py:120-122 | every stored result goes back to one accepted submission and the claim before it |
| `OwnershipRuns.ResultStays` | src/ip_proxy_pool/reclaim_ownership/lua.py:101-104 | a stored result never changes |
| `OwnershipRuns.AnsweredOnce` | src/ip_proxy_pool/reclaim_ownership/lua.py:101-122 | no slot takes two answers |
| `OwnershipRuns.StepOnCase` | src/ip_proxy_pool/reclaim_ownership/lua.py:33-35 | cases appear only by opening, keep members, cycle and opening time, and move only forward |
| `OwnershipTheorems.AnswersAreBounded` | src/ip_proxy_pool/reclaim_ownership/lua.py:120-149 | a case takes at most two answers per member, and fewer while it is pending |
| `OwnershipTheorems.RevisionCountsVerdicts` | src/ip_proxy_pool/reclaim_ownership/lua.py:123-147 | the revision of a case is the number of verdicts it was given, two at most |
| `OwnershipTheorems.VerdictsMoveForward` | src/ip_proxy_pool/reclaim_ownership/store.py:63-67 | a status moves only from pending to a verdict and from external or unconfirmed to internal, which is final |
| `OwnershipVerdicts.StatusFollowsItsCause` | src/ip_proxy_pool/reclaim_ownership/lua.py:123-170 | over every run each step leaves a case internal exactly for an accepted `found` or a success that corrects it, external for the `absent` that completes the second round, unconfirmed for a reap while pending, and else as it was |
| `OwnershipVerdicts.BirthFollowsItsCause` | src/ip_proxy_pool/reclaim_ownership/lua.py:23-32 | a case is born internal exactly if its cycle has a reliable entry time and a receipt from then or later, and pending otherwise |
| `OwnershipVerdicts.VerdictHasItsCause` | src/ip_proxy_pool/reclaim_ownership/lua.py:23-170 | every verdict in every reachable state goes back to the one step that gave it, with its cause, and has stood since |
| `OwnershipVerdicts.InternalHasAReason` | src/ip_proxy_pool/reclaim_ownership/lua.py:23-32 | an internal case has a `found` on record, or its cycle has a reliable entry time and a receipt from then or later |
| `OwnershipVerdicts.SuccessRegistersExactly` | src/ip_proxy_pool/reclaim_ownership/store.py:31-80 | over every run a success is registered exactly as the first of its key by a new event or as the repetition of a registered one; what it writes and answers |
| `OwnershipVerdicts.ReceiptStays` | src/ip_proxy_pool/reclaim_ownership/store.py:43 | a receipt never changes |
| `OwnershipVerdicts.SameIdentityExactly` | src/ip_proxy_pool/reclaim_ownership/store.py:88-92 | two cycles share digest or identity exactly if record and entry time, or the text given for it, are the same |
| `OwnershipQueues.OpeningAnswersExactly` | src/ip_proxy_pool/reclaim_ownership/lua.py:15-48 | over every run: which openings are refused, repeated or carried out, and the case, deadline and jobs that one writes |
| `OwnershipQueues.JobsAreDueExactly` | src/ip_proxy_pool/reclaim_ownership/lua.py:114-143 | after every step a queued job is due 30 s after its failed check, when it was due before, or, if new, at once in round one and at max(now + 15 s, opening + 30 s) in round two |
| `OwnershipQueues.LeasedMeansHeld` | src/ip_proxy_pool/reclaim_ownership/lua.py:65-66 | a job is kept from claims exactly while its last claim is less than 30 s old and nothing was accepted for it since |
| `OwnershipQueues.ClaimsAnswerExactly` | src/ip_proxy_pool/reclaim_ownership/lua.py:56-71 | a claim hands out the first job it read that nobody holds, with the cycle of its case, and comes back empty exactly if all are held |
| `OwnershipQueues.ClaimServesTheEarliest` | src/ip_proxy_pool/reclaim_ownership/lua.py:56-71 | the job handed out is due and held by nobody, and every due job of the member that is due before it is held |
| `OwnershipQueues.EmptyClaimFoundAllHeld` | src/ip_proxy_pool/reclaim_ownership/lua.py:56-71 | an empty answer means that all due jobs of the member are held, or a hundred of them |
| `OwnershipQueues.ErrorsAreCounted` | src/ip_proxy_pool/reclaim_ownership/lua.py:115-116 | the error counters of each case and of all are the numbers of failed checks accepted so far |
| `OwnershipTheorems.ResultIdsAreUsedOnce` | src/ip_proxy_pool/reclaim_ownership/lua.py:91-97 | two accepted submissions never share a result ID |
| `OwnershipReplies.UsedIdIsAnsweredExactly` | src/ip_proxy_pool/reclaim_ownership/lua.py:91-97 | over every run a submission under a result ID used before is acknowledged if it repeats that answer, refused if it differs, and changes nothing |
| `OwnershipReplies.NewIdIsAnsweredExactly` | src/ip_proxy_pool/reclaim_ownership/lua.py:98-150 | over every run one under a new ID is refused for a settled case, an answered share, or a token that is not that of the claim that has held the share for less than 30 s, in this order, and else accepted |
| `OwnershipReplies.UnreadableIsRefused` | src/ip_proxy_pool/reclaim_ownership/lua.py:80-90 | an unreadable submission names the first thing wrong with it and changes nothing |
| `OwnershipTheorems.ReplayChangesNothing` | src/ip_proxy_pool/reclaim_ownership/lua.py:93-97 | repeating an accepted submission at any later moment is acknowledged and changes nothing |
| `OwnershipTheorems.RepeatedSuccessChangesNothing` | src/ip_proxy_pool/reclaim_ownership/store.py:34-41 | repeating a registered success at any later moment changes nothing |
| `OwnershipTheorems.OverriddenCasesAreInternal` | src/ip_proxy_pool/reclaim_ownership/store.py:58-75 | with a receipt from after a positive entry time, every case of the cycle opened since the entry is internal, in every reachable state |
| `OwnershipTheorems.OpenAndSuccessCommute` | src/ip_proxy_pool/reclaim_ownership/store.py:58-75 | opening and success lead to one state in either order exactly if the entry time is positive or still to come |
| `OwnershipTheorems.EpochEntryBreaksTheOrder` | src/ip_proxy_pool/reclaim_ownership/store.py:59 | an entry time of 0 for which the two orders differ |
| `OwnershipTheorems.DeadlinesArePendingCases` | src/ip_proxy_pool/reclaim_ownership/store.py:292-305 | the deadlines are exactly the pending cases, each 24 h after its opening, so the reported count is the true one |
| `OwnershipTheorems.ReapSettlesExpired` | src/ip_proxy_pool/reclaim_ownership/lua.py:157-173 | one reap settles and counts min(100, expired) cases, only expired ones |
| `OwnershipTheorems.ReapsDrainExpired` | src/ip_proxy_pool/reclaim_ownership/lua.py:157-173 | k reaps at one time leave max(0, n - 100k) of n expired cases |
| `OwnershipServer.Server.Serve` | src/ip_proxy_pool/reclaim_ownership/lua.py:12-175 | a store driven by any scripts stays the last state of a legal run |
| `CycleIdentity.FieldsOfPayload` | src/ip_proxy_pool/reclaim_ownership/store.py:83-85 | the fields can be read back from the hashed bytes |
| `CycleIdentity.PayloadOfFields` | src/ip_proxy_pool/reclaim_ownership/store.py:83-85 | bytes that can be read as fields are the payload of those fields |
| `CycleIdentity.IdentitiesDiffer` | src/ip_proxy_pool/reclaim_ownership/store.py:83-92 | two payloads are equal exactly if all their fields are |
| `QuotaStore.Store.Acquire` | src/ip_proxy_pool/reclaim_quota/lua.py:1-23 | the script step by step over the window and the attempt keys |
| `Quota.ReachableIsGood` | src/ip_proxy_pool/reclaim_quota/lua.py:9-22 | window and attempt keys agree with the grants since the last restart in every reachable state |
| `Quota.ExpiryIsInvisible` | src/ip_proxy_pool/reclaim_quota/lua.py:16 | the 120 s expiry of the window never drops a grant that counts |
| `Quota.WindowIsRecentGrants` | src/ip_proxy_pool/reclaim_quota/lua.py:9-10 | the window is exactly the fresh grants of the last 60 s since the restart |
| `Quota.FreshGrantIsANewMember` | src/ip_proxy_pool/reclaim_quota/lua.py:15 | a fresh grant never overwrites a member of the window |
| `Quota.GrantsAreSpaced` | src/ip_proxy_pool/reclaim_quota/lua.py:2-19 | with a guard of at least 61 s any six fresh grants in a row span 60 s, over any run with any restarts |
| `Quota.SpacedMeansFivePerWindow` | src/ip_proxy_pool/reclaim_quota/lua.py:14 | grants so spaced are at most five in every window of 60 s |
| `Quota.SafeExactlyFrom61Seconds` | src/ip_proxy_pool/reclaim_quota/store.py:13-17 | every run keeps five per window exactly if the minimum uptime is at least 61 s |
| `Quota.SixInAMinute` | src/ip_proxy_pool/reclaim_quota/lua.py:4 | for any smaller guard a legal run with six fresh grants in less than 60 s |
| `Quota.RetryAfterIsExact` | src/ip_proxy_pool/reclaim_quota/lua.py:20-22 | the announced wait is exactly the least after which an uncontended request is granted |
| `Quota.RepeatedAttemptIsFree` | src/ip_proxy_pool/reclaim_quota/lua.py:11-13 | a granted attempt repeated within ten minutes is granted again and takes no place |
| `Quota.RemainingIsWhatIsLeft` | src/ip_proxy_pool/reclaim_quota/lua.py:12-18 | the reported remainder is five less the grants that count |
| `QuotaServer.Server.Acquire` | src/ip_proxy_pool/reclaim_quota/lua.py:1-23 | a store driven by requests and restarts stays at the end of a legal run |
| `PeerPolicy.EffectiveIsTheMeet` | src/ip_proxy_pool/peer_cache/policy.py:43-66 | the effective policy accepts a proxy exactly if request, service, cache and hard bounds all do, and is valid if they are |
| `PeerPolicy.EffectiveIsIdempotent` | src/ip_proxy_pool/peer_cache/store.py:59-61 | tightening a policy twice by the same policies changes nothing |
| `PeerPolicy.AcceptedUntil` | src/ip_proxy_pool/peer_cache/policy.py:69-89 | what is accepted stays accepted exactly until it expires or its check reaches the greatest age |
| `PeerCache.ConfiguredIsConfig` | src/ip_proxy_pool/peer_cache/store.py:40-66 | settings are refused exactly for a TTL or cooldown that is not positive; otherwise the TTL is the lesser of the one given and 180 s, the cooldown the greater of the one given and 600 s |
| `PeerCache.ConfiguredAccepts` | src/ip_proxy_pool/peer_cache/store.py:58-61 | the cache accepts what both its configured policy and the hard bounds accept |
| `PeerCacheStore.Store.BeginSync` | src/ip_proxy_pool/peer_cache/lua.py:3-8 | a lock or nothing, and a new generation with it |
| `PeerCacheStore.Store.AbortSync` | src/ip_proxy_pool/peer_cache/lua.py:138-143 | only the holder under its own generation gives up the lock |
| `PeerCacheStore.Store.Replace` | src/ip_proxy_pool/peer_cache/store.py:101-165 | the two-stage replacement with its refusals, filter and counts does what one test of each item does |
| `PeerCacheStore.Store.Refill` | src/ip_proxy_pool/peer_cache/lua.py:16-50 | the script forgets what is over, clears the cache and refills it from what it was sent |
| `PeerCacheStore.TwoPassesAreOne` | src/ip_proxy_pool/peer_cache/store.py:115-160 | filtering first and judging the rest in the script keeps the same entries and the same sums as one pass |
| `PeerCacheStore.Store.Select` | src/ip_proxy_pool/peer_cache/lua.py:53-112 | the walk over the later endpoints, issuing receipts |
| `PeerCacheStore.Store.Count` | src/ip_proxy_pool/peer_cache/lua.py:86-105 | the counting mode of the same walk |
| `PeerCacheStore.Store.Invalidate` | src/ip_proxy_pool/peer_cache/lua.py:114-136 | the first report on a receipt suppresses and uncaches its endpoint |
| `PeerCacheRuns.ReachableIsGood` | src/ip_proxy_pool/peer_cache/lua.py:3-143 | cached entries were accepted, expiry keys equal record keys with equal times, failures, receipts and lock are as their scripts made them, in every reachable state |
| `PeerCacheRuns.RememberedIsKept` | src/ip_proxy_pool/peer_cache/lua.py:16-21 | every step keeps a failure on record, or a later one, or its time is over |
| `PeerCacheSelection.FailedIsNeverServedAgain` | src/ip_proxy_pool/peer_cache/lua.py:76-85 | after a report at t on an observation of time s, no later selection returns the endpoint on an observation of time max(s, t + 5) or before, nor before t + cooldown, whatever later reports, replacements and collected failures lie between |
| `PeerCacheEffects.ReportIsAppliedExactly` | src/ip_proxy_pool/peer_cache/lua.py:114-135 | a report is applied exactly if its receipt is there and unused; what it removes, suppresses, for how long, and nothing else |
| `PeerCacheEffects.ReceiptStands` | src/ip_proxy_pool/peer_cache/lua.py:92-103 | until it is reported on or runs out a token stands for the observation that it was handed out with |
| `PeerCacheEffects.FirstReportIsApplied` | src/ip_proxy_pool/peer_cache/lua.py:114-135 | over every run the first report on a token that was handed out, before its receipt runs out, is applied to that observation |
| `PeerCacheEffects.ReportedIsNeverServedAgain` | src/ip_proxy_pool/peer_cache/lua.py:76-135 | from handing out to the report to any later selection: the endpoint is never again returned on that or an older observation, on one up to 5 s after the report, or within the cooldown |
| `PeerCacheEffects.EligibleExactly` | src/ip_proxy_pool/peer_cache/lua.py:65-86 | in every reachable state a cached proxy may be chosen exactly if request, cache and hard bounds accept it, it is neither excluded nor formal, no failure speaks against it, and it stays usable after now |
| `PeerCacheEffects.UsableExactly` | src/ip_proxy_pool/peer_cache/lua.py:83-84 | the usable-until time is the least of 600 s from now, the expiry of the entry and 5 s less than each greatest age |
| `PeerCacheSelection.SelectionIsSafe` | src/ip_proxy_pool/peer_cache/lua.py:65-110 | every choice is accepted by request, cache and hard bounds, is neither excluded nor formal nor suppressed, expires in time, and has a token of its own bound to its own receipt |
| `PeerCacheSelection.UsableMeansAcceptable` | src/ip_proxy_pool/peer_cache/lua.py:83-84 | until its usable-until time a choice stays acceptable to all policies it was chosen under |
| `PeerCacheSelection.SelectionIsExact` | src/ip_proxy_pool/peer_cache/lua.py:65-105 | with fresh tokens a selection has exactly min(count, eligible) proxies, those that expire soonest |
| `PeerCacheSelection.CountPredictsSelection` | src/ip_proxy_pool/peer_cache/store.py:202-225 | the count is the size of the selection of 20 that the same policy would get now |
| `PeerCacheSync.CommitsIncrease` | src/ip_proxy_pool/peer_cache/lua.py:12-15 | the generations that commit strictly increase over any run with locks running out at any time |
| `PeerCacheSync.CommitHasItsBegin` | src/ip_proxy_pool/peer_cache/lua.py:3-15 | a commit is by the owner that was given its generation and has held the lock since |
| `PeerCacheSync.CommitIsComplete` | src/ip_proxy_pool/peer_cache/lua.py:22-50 | a replacement commits exactly if it is valid and fenced; then the cache is exactly the snapshot's items that pass and the counts add up; else nothing changes |
| `PeerCacheEffects.SnapshotExactly` | src/ip_proxy_pool/peer_cache/store.py:117-140 | which item of a committed snapshot is kept, and until when, in terms of policy, expiry, time to live, greatest age, formal endpoints and failures on record |
| `PeerCacheEffects.SnapshotCounts` | src/ip_proxy_pool/peer_cache/lua.py:23-50 | filtered and suppressed count the items left out for each of the two reasons |
| `PeerCacheEffects.StaleChangesNothing` | src/ip_proxy_pool/peer_cache/store.py:117-165 | a valid replacement without the lock of its generation changes nothing and counts as filtered what the store left out itself |
| `PeerCacheEffects.CommitForgetsExactly` | src/ip_proxy_pool/peer_cache/lua.py:16-21 | a commit forgets exactly the failures whose time on record is over, and keeps the others as they are |
| `PeerCacheSync.CollectionIsInvisible` | src/ip_proxy_pool/peer_cache/store.py:241-243 | forgetting a failure whose time is over never changes what happens to an item |
| `PeerCacheServer.Server.Serve` | src/ip_proxy_pool/peer_cache/lua.py:3-143 | a cache driven by any events stays the last state of a legal run |
| `AlertMonitor.EventState.Step` | src/ip_proxy_pool/peer_cache/monitor.py:149-198 | one transition of the persisted event, field by field |
| `AlertMonitor.DeliveredAlertsAlternate` | src/ip_proxy_pool/peer_cache/monitor.py:153-197 | over every run with any failed sends: failure, recovery, failure and so on, recoveries name their failure, failures are 1800 s apart, pending follows from the two flags |
| `AlertMonitor.RetriesKeepTheirId` | src/ip_proxy_pool/peer_cache/monitor.py:195-197 | an alert that stays pending keeps its identifier and start |
| `AlertMonitor.FailuresAreDistinct` | src/ip_proxy_pool/peer_cache/monitor.py:161 | no two delivered failures share an identifier |
| `AlertDelivery.OnsetIsRemembered` | src/ip_proxy_pool/peer_cache/monitor.py:153-189 | when an event becomes and stays active, and whose time and identifier it carries; a condition that comes back before its recovery was delivered is no new failure |
| `AlertDelivery.FailureIsDeliveredExactly` | src/ip_proxy_pool/peer_cache/monitor.py:158-197 | over every run a failure alert is delivered exactly if it is accepted, the condition holds, the last delivered alert was no failure, and the 1800 s or the retry wait is over |
| `AlertDelivery.RecoveryIsDeliveredExactly` | src/ip_proxy_pool/peer_cache/monitor.py:166-197 | over every run a recovery is delivered exactly if it is accepted, the last delivered alert was a failure, and the evidence of recovery is in or was in and the retry wait is over |
| `AlertDelivery.RetriesFollowTheSchedule` | src/ip_proxy_pool/peer_cache/monitor.py:195-197 | after its first, second and every further refusal an alert is offered again at the first tick 60, 120 and 300 s later, and nothing changes until then |
| `AlertDelivery.SendTimesAreKept` | src/ip_proxy_pool/peer_cache/monitor.py:189-194 | the times an event keeps are those of the last alert and the last failure delivered |
| `Scoring.HealthReflectsHistory` | src/ip_proxy_pool/checker/scoring.py:14-68 | run counters are the trailing runs of the history, the score stays in 0..100, and available means two successes in a row once, a score of 50 and fewer than three failures since |
| `Scoring.FailuresCost` | src/ip_proxy_pool/checker/scoring.py:46-68 | without a success k failures cost 15, then 25, then 35 each, down to 0, and the state that this makes; failures of the checker change nothing |
| `Scoring.SuccessesEarn` | src/ip_proxy_pool/checker/scoring.py:17-44 | without a failure k successes give at least 75, 85, 90 and so on up to 100, five points each, and make a proxy available from the second on |
| `Scoring.CheckedAtLastProof` | src/ip_proxy_pool/checker/scoring.py:14-36 | the time of the last check is that of the last probe that proved something |
| `Scoring.AverageWithinObserved` | src/ip_proxy_pool/checker/scoring.py:20-26 | the average latency exists once one was observed and lies within the bounds of all observed |
| `Scoring.AverageClosesIn` | src/ip_proxy_pool/checker/scoring.py:20-26 | while one latency is observed the average closes three tenths of its distance to it each time |
| `PoolStore.Store.UpsertCandidate` | src/ip_proxy_pool/storage/repository.py:218-254 | a new endpoint enters as a candidate, a known one is merged and re-indexed |
| `PoolStore.Store.SaveRecord` | src/ip_proxy_pool/storage/repository.py:266-286 | a record and all its index entries are written |
| `PoolStore.Store.ClaimDue` | src/ip_proxy_pool/storage/lua.py:13-42 | priority read, then due read for what is left, leasing what is free |
| `PoolStore.Store.Complete` | src/ip_proxy_pool/storage/lua.py:44-64 | the owner writes the record and gives up the lease |
| `PoolStore.Store.Release` | src/ip_proxy_pool/storage/lua.py:66-77 | the owner puts the endpoint back with a new time, in the priority index if it is there |
| `PoolStore.Store.DeleteLeased` | src/ip_proxy_pool/storage/lua.py:89-101 | the owner removes the endpoint from every key |
| `PoolStore.Store.ReclaimExpired` | src/ip_proxy_pool/storage/lua.py:79-87 | leases that have run out become due now |
| `PoolStore.Store.EnforceCapacity` | src/ip_proxy_pool/storage/repository.py:744-792 | for every split of the scan into batches, exactly the lowest-ranked unleased records beyond the maximum are removed |
| `PoolRuns.ReachableAgrees` | src/ip_proxy_pool/storage/repository.py:218-286 | in every reachable state quality and latency indexes are exactly what the records say, priority membership is right for every stored endpoint, lease tables agree, and every stored endpoint is due or leased |
| `PoolRuns.AgreementLasts` | src/ip_proxy_pool/storage/repository.py:218-286 | from any agreeing state on, every later state of a run agrees |
| `PoolRuns.UpgradedPoolAgrees` | src/ip_proxy_pool/migration.py:80-132 | a pool that starts with arbitrary selection indexes and is used in any way agrees in every state from its first rebuild on |
| `PoolRuns.NothingIsInconsistent` | src/ip_proxy_pool/storage/repository.py:586-587 | under that agreement the cleanup after a selection finds nothing to remove |
| `PoolRuns.RebuildRestores` | src/ip_proxy_pool/storage/lua.py:112-124 | a rebuild brings any drifted selection indexes back to agreement |
| `PoolLeases.ClaimOn` | src/ip_proxy_pool/storage/lua.py:18-40 | a claim leases exactly the endpoints it returns, all of which were due and free, and leaves the others alone |
| `PoolLeases.ClaimIsBounded` | src/ip_proxy_pool/storage/repository.py:306 | a claim returns distinct endpoints within its limit, and priority never takes the last place of two or more |
| `PoolLeases.ClaimIsExhaustive` | src/ip_proxy_pool/storage/lua.py:27-40 | if nothing is both due and leased, a short claim has taken all that was due |
| `PoolLeases.ReadHasOrder` | src/ip_proxy_pool/storage/lua.py:29-31 | every bounded read is the beginning of an order of all that is due |
| `PoolLeases.MissesWorkExactlyIfBlocked` | src/ip_proxy_pool/storage/lua.py:27-40 | a claim comes back short and leaves free work exactly if, in the due order, a leased endpoint stands among those it has room for and a free one after them |
| `PoolEdges.LeasedAndDueHidesOthers` | src/ip_proxy_pool/storage/lua.py:29-33 | five operations after which a claim comes back empty although work is due and free |
| `PoolLeases.LeaseStands` | src/ip_proxy_pool/storage/lua.py:19-23 | from its claim until something ends it a lease keeps its owner and its time |
| `PoolLeases.LeasesAreExclusive` | src/ip_proxy_pool/storage/lua.py:19-37 | between two claims of one endpoint its lease was ended |
| `PoolLeases.LeaseEndsByOwnerOrTime` | src/ip_proxy_pool/storage/lua.py:79-87 | a standing lease is ended only by its own worker or by a reclaim after its time |
| `PoolLeases.FinishSucceedsExactly` | src/ip_proxy_pool/storage/lua.py:44-101 | giving back a lease succeeds exactly if nothing has ended it since its claim |
| `PoolLeases.FinishedOnce` | src/ip_proxy_pool/storage/lua.py:44-101 | complete, release and delete together succeed at most once per token and endpoint |
| `PoolEffects.CompletedExactly` | src/ip_proxy_pool/storage/lua.py:44-64 | when a completion is rejected, lost or done; then the record is stored under its score, due at its next check and indexed by what it says, and nothing else is touched |
| `PoolEffects.ReleasedExactly` | src/ip_proxy_pool/storage/lua.py:66-77 | a release by the owner makes the endpoint due at the time given, in the priority index too if it is there, and touches nothing else |
| `PoolEffects.CompletionHoldsOff` | src/ip_proxy_pool/storage/lua.py:48-60 | over every run a completed endpoint is not given out before the next check of its record, unless a new record is stored meanwhile |
| `PoolEffects.HeldOffUntil` | src/ip_proxy_pool/storage/lua.py:13-87 | over every run claims, rebuilds, sightings, evictions and reclaims keep to the time that an endpoint is held off until |
| `PoolEffects.ReleaseHoldsOffExactly` | src/ip_proxy_pool/storage/lua.py:70-73 | a release holds its endpoint off until its time exactly if it is no fast proxy whose next check comes earlier |
| `PoolEffects.ReleaseHoldsOff` | src/ip_proxy_pool/storage/lua.py:66-77 | over every run such an endpoint is not given out before that time |
| `PoolEffects.SightingForgetsRelease` | src/ip_proxy_pool/storage/repository.py:249-253 | any other released endpoint is due again from its next check on after a sighting or a rebuild |
| `PoolEffects.SeenAgainExactly` | src/ip_proxy_pool/storage/repository.py:234-254 | a sighting of a known endpoint adds sources, widens the time it was seen in, and keeps what checks have found out |
| `PoolRuns.GivenBackOn` | src/ip_proxy_pool/storage/lua.py:79-87 | a reclaim makes exactly the endpoints it read due at its time and ends their leases |
| `PoolServer.Server.Claim` | src/ip_proxy_pool/storage/lua.py:13-42 | a claim on a driven pool extends its run, so all that holds of runs holds of the pool |
| `PoolServer.Server.Finish` | src/ip_proxy_pool/storage/lua.py:44-101 | giving back a lease in any of three ways extends the run with its answer |
| `PoolEdges.EvictionReachesCapacity` | src/ip_proxy_pool/storage/repository.py:749-792 | after an eviction the pool has its maximum, or its leased records if they are more, and every lease is untouched |
| `PoolEdges.GoneExactly` | src/ip_proxy_pool/storage/repository.py:770-783 | an unleased record is given up exactly if fewer than the excess rank below it, which can be told before the eviction |
| `Eviction.GoneBeforeKept` | src/ip_proxy_pool/storage/repository.py:770-778 | whatever is given up was quarantined and what is kept was not, or both or neither were and it has the lower score, the older check or sighting, or the earlier endpoint |
| `Eviction.TextBeforeExactly` | src/ip_proxy_pool/storage/repository.py:777 | the order of endpoints is the lexicographic one |
| `PoolEdges.EvictionOrphansExactly` | src/ip_proxy_pool/storage/repository.py:783-790 | an eviction leaves no priority entry without a record exactly if, before it, every entry is leased or ranks above at least the excess of unleased records |
| `PoolEdges.OrphansComeFromEvictions` | src/ip_proxy_pool/storage/repository.py:783-790 | over any run no other operation makes an orphan, and an eviction makes one exactly if that condition fails in the state before it |
| `PoolEdges.OrphanIsHandedOut` | src/ip_proxy_pool/storage/lua.py:15-25 | from the empty pool, for any two endpoints: two saves, an eviction that orphans the first, a claim that hands it out without a record, a release that makes it due |
| `Eviction.BatchKeepsFirst` | src/ip_proxy_pool/storage/repository.py:779 | keeping the first n of kept and batch is keeping the first n of all so far |
| `Eviction.FirstIsLowest` | src/ip_proxy_pool/storage/repository.py:770-783 | the first of all ranks in order are min(excess, unleased) endpoints that rank below every other unleased one |
| `Eviction.LowestIsUnique` | src/ip_proxy_pool/storage/repository.py:756-783 | every scan in every order and split gives up the same endpoints |
| `Selection.SelectRandomProxies` | src/ip_proxy_pool/storage/repository.py:482-598 | for every random start exactly min(count, 20, eligible) distinct eligible proxies, each of which qualifies by its own record, freshness included; each counter counts the members inspected with its verdict; only inconsistent members are cleared; which queries are refused |
| `Selection.SelectionCounts` | src/ip_proxy_pool/storage/repository.py:644-703 | selectable is exactly the number of eligible members |
| `Selection.TallyIsExact` | src/ip_proxy_pool/storage/repository.py:549-581 | every inspected member is selected or in the one counter of its verdict |
| `Selection.JudgedExactly` | src/ip_proxy_pool/storage/repository.py:49-73 | each verdict on a member in plain terms: unreadable or misplaced, score, successes, age, or qualifying |
| `Selection.IndexFindsTheScan` | src/ip_proxy_pool/storage/repository.py:49-73 | in every agreeing state the eligible members are exactly what a scan of all records finds, and none is inconsistent |
| `Paging.ListProxies` | src/ip_proxy_pool/storage/repository.py:413-480 | a page with a successor is full and holds the matches up to it, a page without one holds all that are left |
| `Paging.PagesAreTheListing` | src/ip_proxy_pool/storage/repository.py:436-480 | the pages from 0 to the end are the matches among the first 10001 members in order, and all but the last are full |
| `Paging.ListAll` | src/ip_proxy_pool/storage/repository.py:436-480 | following the pages ends and yields that listing |
| `Paging.ListingIsComplete` | src/ip_proxy_pool/storage/repository.py:443-468 | when the quality index agrees, the listing holds each record asked for once, best score first; beyond 10001 none left out is better than one listed |
| `Rebuild.Indexes.Rebuild` | src/ip_proxy_pool/migration.py:62-143 | a rebuild leaves exactly what the records say, its counts are right, its own check never fails, and a dry run writes nothing |
| `PoolStore.Store.RebuildIndexes` | src/ip_proxy_pool/migration.py:62-143 | on a pool with any selection indexes and for any scan, the rebuild loop leaves every key agreeing and no priority entry without a record |
| `Rebuild.RankBatch` | src/ip_proxy_pool/migration.py:84-105 | one batch contributes exactly its part of both indexes |
| `Rebuild.AmongSize` | src/ip_proxy_pool/migration.py:104-109 | batches without a common endpoint add up, in contents and in counts |

## Left out

- The 48 h expiry of ownership keys, the heartbeat and conflict counters, and reading ISO entry times: an entry time is given with its milliseconds.
- The tokens and cycles in replies that only echo stored fields.
- The state hash of the peer cache (attempt times, outcome, failure counts): nothing reads it back in these scripts.
- Writers between the steps of `upsert_candidate`, between the chunks of an eviction, and during a selection, a listing, a scan or a rebuild: an eviction in `PoolRuns` is one step, and the loops read unchanging data.
- Selection and listing return endpoints, not the decoded records behind them; where a stored record may fail to decode (`Selection`, `Rebuild`) it is marked as corrupt.
- The set of domains, domain arguments and the plain reads `get_record`, `record_count`, `is_due` and `stats`.
- The unused script CLAIM_DUE and the one-index script REPLACE_LATENCY_INDEX, which the two scripts modelled here replace.
- The ready flags of the two indexes are one flag, because they are set together.
- Random numbers: the start of a selection is a parameter, the picks of its shuffle are arbitrary.
- The web interface, authentication, settings, probing, downloading, the alert webhook, the dashboard, circuit breaker, rate limiter, heartbeat and history: a probe or a send is an arbitrary outcome.
