# Sandbox scheduler: model and proofs

The scheduler hands Kubernetes sandboxes to projects. Its guarantees rest on a few small protocols over one Redis, each
made of separate commands that interleave. This project models Redis as a timed store, the callers as steps over it, and
proves what the protocols keep over whole runs, up to the end-to-end claim that no sandbox is ever shared by two projects.

`dafny verify dfyconfig.toml` checks everything.

## How it is built

Each protocol is a state machine: a `State`, an `Event` per command that can take effect (with its ways to fail), a
predicate `Enabled`, a function `Apply`, and a `Run` of states and events. Results are stated about every state of every
run. A command can be done and acknowledged, done with its reply lost, or not done; a process can crash between commands.

Beside each machine stands the imperative code in the shape of the source: a class whose methods issue the commands
one by one through a method `Do`, which requires each to be enabled and extends the recorded run. Between commands a
method calls `Others`, whose contract lets everything else take any number of steps. A caller's phase fixes which command
it may issue next, so the methods are callers of the kind the whole-run theorems speak about. These classes (`ClaimService.Scheduler`, `PoolService.SandboxPool`, `ProjectService.Service`) have a constant `reliable`: the
contracts hold whatever fails, and say more about a caller none of whose own commands fails.

| file | content |
|---|---|
| `Ids.dfy` | identifiers: base 36, prefixes, parsing |
| `Timed.dfy` | keys with deadlines, and the naming of keys |
| `Claims.dfy`, `ClaimProofs.dfy`, `ClaimService.dfy` | the idempotence claim protocol, its theorems, its callers |
| `Pool.dfy`, `PoolOwnership.dfy`, `PoolBounds.dfy`, `PoolService.dfy` | the sandbox pool, its theorems, its maintainer |
| `ProjectStore.dfy`, `StoreProofs.dfy` | the project store, and its runs pipeline by pipeline |
| `Pipelines.dfy`, `IndexProofs.dfy`, `LogProofs.dfy` | the store command by command: the maps, the index set, the log |
| `Messages.dfy`, `Routes.dfy` | update messages, and the xDS route table built from them |
| `Cleanup.dfy` | the paged clean-up of expired sandboxes |
| `System.dfy`, `SystemProofs.dfy`, `ReleaseProofs.dfy`, `ProjectService.dfy` | all of it together, and GetProjectSandbox |
| `Stutters.dfy`, `Projections.dfy` | the system seen from its parts, whose theorems carry over |
| `Sharing.dfy` | which projects can come to share a sandbox |

## Hypotheses

- One scheduler process, hence one maintenance lock (`k8s/base/scheduler-deployment.yaml:45`).
- Each command sent to a store takes effect at most once, although its reply may be lost.
- The cluster refuses a pod name that was used before, and generated names are base-36 numerals.
- Project identifiers are those the API accepts, any nonempty string (`Ids.ApiProjectIdIsRaw`). Where a name matters, the
  theorem says so, and as far as it can about the one project it speaks of: `Sharing.SharingExactly`,
  `Pipelines.MirrorExactly`, `IndexProofs.ListedExactly` and `Messages.UpdateRoundTrip` say exactly which names do.
- The keys `pool:<nanoseconds>` that the pool uses do not repeat.
- Update messages arrive in order, and the handler of one is a single step under the lock.

Two hypotheses that a reader might expect are not made: that callers wait for one another, and that commands succeed.

## Where the code does less than it seems to

Each of these is a concrete run of the model, from its initial state, next to the theorem that says what does hold.

- A key does not get one sandbox at most: a caller that wins the marker does not look again for a result
  (`ClaimProofs.StaleLookupDuplicates`). Any extra sandbox is that of a call that had looked up before the completion and
  was still underway (`ClaimProofs.ExtrasAreOfEarlierCalls`).
- The marker does not name its setter, so exclusion ends when a claimer is slower than the marker
  (`ClaimProofs.SlowClaimerBreaksExclusion`) or when the reply to its completion is lost, because its deferred Drop then
  deletes the next claimer's marker (`ClaimProofs.LostCompletionBreaksExclusion`). `ClaimProofs.ExclusiveExactly` says
  that the lost reply, and the taking over of a lapsed marker, are the only steps that do so.
- Project identifiers and the pool's keys share one key space: a project called like a key the pool has used is given the
  pool's sandbox, and another project too (`Sharing.PoolKeyShares`). `Sharing.SharingExactly` says that no other pair of
  projects can ever share.
- A recount that fails reads as zero and the pool can overfill, in total (`PoolBounds.FailedRecountOverfills`) and in
  pending sandboxes (`PoolBounds.FailedPendingRecountOverfills`). `PoolBounds.CapacityExactly` says which steps do it.
- Pipelines are not transactions, and a live project can drop out of the index set: by a removal interleaved with a set
  (`Pipelines.InterleavingLosesIndexEntry`), or without any removal, when the index lapses between a set's SADD and its
  EXPIRE (`Pipelines.LapseLosesIndexEntry`). `IndexProofs.IndexExactly` says that these are the only two ways.
- Nor are their messages published in the order of their writes: whoever follows them can end up with the other of two
  sandboxes (`LogProofs.InterleavingMisordersLog`); `LogProofs.LogExactly` says which PUBLISH does it.
- A project whose identifier is `project-` and something more keeps its forward entry when its sandbox is released, since
  the reverse entry is parsed before it is used (`Pipelines.PrefixedProjectLosesMirror`), and is not enumerated
  (`IndexProofs.UnrawIsMissed`). For every other project the two maps agree, whatever its neighbours are called.

## Model

| member | source | states |
|---|---|---|
| SystemProofs.NoSharedSandbox | scheduler/internal/project/service.go:66-111 | in every reachable state of requests, pool rounds, releases, expiry, failures and crashes interleaved command by command, two projects' forward entries and Kubernetes services never name one sandbox, for any two projects neither of which is called like a key the pool has used |
| SystemProofs.NoSharedAnswer | scheduler/internal/project/service.go:57-143 | requests for different such projects, at whatever times they ran, never answer with the same sandbox |
| Sharing.SharingExactly | scheduler/internal/project/service.go:88-118 | no run ever has two projects served by one sandbox, if and only if neither is called like a key of the pool |
| Sharing.PoolKeyShares | scheduler/internal/sandboxpool/service.go:225-228 | for every pool key and every other project a run, from the initial state, in which the project called like the key and that other one are served by one sandbox |
| SystemProofs.SystemStep | scheduler/internal/project/service.go:57-143 | every step of any participant keeps the whole-system invariant: provenance, pool ownership, and that what requests hold and records name belongs to their project |
| SystemProofs.OwnerIsUnique | scheduler/internal/project/service.go:88-94 | a sandbox made under a project's key, or made under the pool's and popped for a project, belongs to one project only |
| SystemProofs.PoolResultIsNew | scheduler/internal/sandboxpool/service.go:223-240 | what ScheduleSandbox returns for a fresh pool key was never in the pool before: the claim protocol meets the pool's hypothesis |
| Projections.SystemMapsAgree | scheduler/internal/persistence/redis.go:130-220 | in the whole system, as long as no project is called like a used pool key, the forward entry of a project that parsing leaves alone or refuses is mirrored, or a pipeline still owes the write or delete that settles it |
| SystemProofs.SystemPoolIsConserved | scheduler/internal/sandboxpool/service.go:112-240 | inside the whole system every pool sandbox is in exactly one place and the pool is never offered one twice |
| Projections.SystemMutualExclusion | scheduler/internal/persistence/idempotence_impl.go:166-232 | mutual exclusion, under the same hypotheses, holds of the claims of project requests and pool together |
| Projections.SystemLateCallIsServed | scheduler/internal/persistence/idempotence_impl.go:166-194 | a call of a request or of the pool that looks up late is served from the stored result and creates nothing, in the whole system |
| Projections.SystemCapacity | scheduler/internal/sandboxpool/service.go:149-179 | the pool keeps its bounds in the whole system, with requests popping and the claim protocol supplying it |
| Projections.SystemHandOutOrder | scheduler/internal/persistence/redis_pool_store.go:44-72 | the pops of all requests of the whole system have stamps that never decrease |
| Projections.SystemIndexAgrees | scheduler/internal/persistence/redis.go:267-324 | in the whole system, under the same proviso, while no step takes a raw project out of the index the enumeration says of it what a lookup says, whenever no set of it is in progress |
| Projections.SystemLogAgrees | scheduler/internal/persistence/redis.go:224-264 | likewise of a subscriber that has handled every message, while all names come through and no last pipeline of the project announces what is no longer so |
| Projections.ClaimRunIsRun | scheduler/internal/scheduler/service.go:111-158 | leaving out the steps of others, a run of the system is a run of the claim protocol, ending in the same state |
| Projections.PoolRunIsRun | scheduler/internal/sandboxpool/service.go:112-240 | likewise for the pool, in which every sandbox made is new |
| Projections.MapRunIsRun | scheduler/internal/persistence/redis.go:130-220 | likewise for the store, in which each sandbox is set for one project only, as long as no project is called like a used pool key |
| SystemProofs.ReadIsOwned | scheduler/internal/persistence/redis.go:113-127 | a sandbox read from a project's forward entry, after parsing, is the one written there and belongs to that project, unless that is called like a used pool key |
| SystemProofs.ResultIsOwned | scheduler/internal/project/service.go:92-94 | what an ended ScheduleSandbox call under the project's key returned belongs to that project, unless that is called like a used pool key |
| ProjectService.Service.GetProjectSandbox | scheduler/internal/project/service.go:57-143 | for every project the API accepts, whatever else runs and whichever commands fail: a sandbox in the answer is owned by the project asked for and by no other, unless that is called like a used pool key; a new one is only obtained if the lookup found none to reuse or found it gone; it is answered as being created if nobody waits, as active exactly if the wait succeeds, and not at all if the wait gives up or fails; when nothing fails here, its mapping has been written both ways for 24 hours, indexed and announced, and the project's service has come to select it, even if the wait fails, and without one the call made of the scheduler did not end well |
| ProjectService.Service.FindActive | scheduler/internal/project/service.go:66-86 | a reused sandbox is what the lookup found, was not seen to be marked as released, and has a pod; one is reused unless the lookup found none or failed, or a live release marker was read, or the cluster, asked in its turn, had no such pod or did not answer |
| ProjectService.Service.IsAlive | scheduler/internal/scheduler/service.go:258-278 | a sandbox taken to be alive has a pod and no marker that could be read; one taken for gone has a live marker that was read, or the cluster was asked and did not name its pod |
| ProjectService.Service.PopSandbox | scheduler/internal/project/service.go:89-93 | a delivered pop takes the first ready sandbox, an empty pool leads on to scheduling, and only a failure ends the request |
| ProjectService.Service.FinishSchedule | scheduler/internal/project/service.go:92-102 | the request takes over exactly the sandbox its call returned, and fails exactly if the call has not ended well |
| ProjectService.Service.Obtain | scheduler/internal/project/service.go:89-102 | when nothing fails here a pool that is not empty supplies its first ready sandbox, and otherwise only a call under the project's key that does not end well leaves the request without one |
| ProjectService.Service.NewSandbox | scheduler/internal/project/service.go:88-142 | when nothing fails, the sandbox obtained is the first ready one if there are any, and is stored and served whatever becomes of the wait |
| ProjectService.Service.Establish | scheduler/internal/project/service.go:104-118 | when nothing fails, after it began the forward and reverse entries were written with 24 hours to live, the project was in a live index set, the update was published, and the service selected the sandbox |
| ProjectService.EndedSetIsStored | scheduler/internal/persistence/redis.go:130-159 | in any run of the whole system, a set pipeline begun after a given state and since run to its end has made each of those writes, between steps of everything else |
| ProjectService.Service.RunPipeline | scheduler/internal/project/service.go:105-109 | the pipeline of the mapping runs command by command among everyone else's, to its end if nothing fails |
| ProjectService.Service.ServeProject | scheduler/internal/project/service.go:112-118 | errors do not stop the request; without them the project's service comes to select the new sandbox |
| ProjectService.Service.Answer | scheduler/internal/project/service.go:120-142 | the sandbox is answered as being created at once if nobody waits, as active if waiting succeeded, and not at all otherwise |
| ProjectService.OthersLeaveRequestAlone | scheduler/internal/project/service.go:57-143 | over any stretch of a run, steps of others leave a request where it is |
| ReleaseProofs.ReleaseIsPermanent | scheduler/internal/scheduler/service.go:161-170 | once a sandbox is marked and if its pod disappears before the marker lapses, IsSandboxGone is true at every later time |
| ReleaseProofs.FastPathNeverRevives | scheduler/internal/scheduler/service.go:258-278 | no request that reads the marker after it was set, the read succeeding, ever answers with that sandbox as active, however its two lookups interleave with the pod's end |
| ReleaseProofs.ReleaseMarks | scheduler/internal/persistence/redis.go:211-217 | the last command of a release sets the marker for five minutes |
| ReleaseProofs.MarkLasts | scheduler/internal/persistence/redis.go:181-220 | no step of the system shortens a marker or brings a pod name back |
| ReleaseProofs.PodStaysGone | scheduler/internal/k8sclient/client.go:595-609 | a pod that is gone stays gone for the rest of the run |
| ReleaseProofs.PodUntilGone | scheduler/internal/k8sclient/client.go:595-609 | a pod that was created is there unless it has disappeared |
| ClaimProofs.MutualExclusion | scheduler/internal/persistence/idempotence_impl.go:166-232 | if no claimer outlives its marker and no completion's reply is lost, at most one claim per key is active in every state, with its marker live |
| ClaimProofs.MarkersAreSpared | scheduler/internal/persistence/idempotence.go:55-93 | while exclusion is spared no other call's Complete or deferred Drop removes or changes an active claimer's marker |
| ClaimProofs.ExclusiveExactly | scheduler/internal/persistence/idempotence_impl.go:68-115 | a step keeps exclusion if and only if it is neither a claimer's completion whose reply is lost nor a SETNX, acknowledged or not, that takes over the lapsed marker of a claimer still active |
| ClaimProofs.ExclusiveAt | scheduler/internal/persistence/idempotence_impl.go:166-232 | in every run without such a step, at most one call per key is active in every state, with its marker in place |
| ClaimProofs.OnlyOpenClaimsWrite | scheduler/internal/persistence/idempotence.go:56-62 | Complete and Drop of a call that did not win, or that has completed, change nothing in the store |
| ClaimProofs.ActiveBefore | scheduler/internal/persistence/idempotence_impl.go:197-213 | a call becomes active only by winning a marker that was not live |
| ClaimProofs.SlowClaimerBreaksExclusion | scheduler/internal/persistence/idempotence_impl.go:68-75 | a run in which a claimer outlives its marker and two calls hold one key |
| ClaimProofs.LostCompletionBreaksExclusion | scheduler/internal/persistence/idempotence.go:68-93 | a run without delay in which a lost reply makes a Drop delete another claimer's marker |
| ClaimProofs.StaleLookupDuplicates | scheduler/internal/persistence/idempotence_impl.go:178-213 | a run without faults or delay that makes two sandboxes for one key |
| ClaimProofs.LateCallIsServed | scheduler/internal/persistence/idempotence_impl.go:166-194 | after a completion, an error-free call that first looks up within ten minutes creates nothing and returns only a sandbox committed for that key |
| ClaimProofs.ExtrasAreOfEarlierCalls | scheduler/internal/persistence/idempotence_impl.go:178-213 | once a claim completes, and while calls that had not looked up by then are error-free and look up within ten minutes, any further sandbox for the key was made by a call that had looked up before and was still underway |
| ClaimProofs.NothingMadeInWindow | scheduler/internal/persistence/idempotence_impl.go:78-99 | with no call for the key underway at the completion, whatever finished, failed or crashed before, the sandboxes made for the key stay the same for the whole window |
| ClaimProofs.LateCallsShareOne | scheduler/internal/persistence/idempotence_impl.go:178-186 | every late call that finishes returns the sandbox the claimer completed with, if at that time no other call for the key is underway or has yet to store a result |
| ClaimProofs.ExactlyOnePerWindow | scheduler/internal/persistence/idempotence_impl.go:78-99 | if the claimer is the first caller for the key and later calls fall in the ten minutes, the sandboxes made for the key are exactly the one it completed with |
| ClaimProofs.ResultLasts | scheduler/internal/persistence/idempotence_impl.go:78-99 | a stored result is only ever replaced by one that lasts at least as long |
| ClaimProofs.HowLongThingsLast | scheduler/internal/persistence/idempotence_impl.go:51-115 | a completed result is found for exactly ten minutes, a marker that is set lives for exactly one, and is gone after a completion or a Drop; nothing changes for other keys |
| ClaimProofs.LookupExactly | scheduler/internal/persistence/idempotence_impl.go:51-65 | nothing is found exactly if there is no live result, and a live one is an error exactly if it is empty or a bare prefix |
| ClaimProofs.Provenance | scheduler/internal/scheduler/service.go:111-158 | a returned sandbox was made for the key asked for, by this call or by a claimer whose Complete stored it |
| ClaimProofs.ProvenanceStep | scheduler/internal/persistence/idempotence_impl.go:51-115 | every step keeps: results come from committed claimers, and each call's sandbox is its own or a committed one |
| ClaimProofs.OnlyCompletionWrites | scheduler/internal/persistence/idempotence_impl.go:78-99 | results and owners change in no step but a claimer's completion |
| ClaimProofs.ResultsAndOwnersAgree | scheduler/internal/persistence/idempotence_impl.go:78-99 | a key's result and that sandbox's reverse entry name each other, with the same deadline, in every state |
| ClaimService.Scheduler.ScheduleSandbox | scheduler/internal/scheduler/service.go:111-158 | the call runs to its end, with the deferred Drop, as a call of the protocol; its result was made for this key by it or by a committed claimer; an empty key changes nothing; without failures it fails only for an unusable pod name, or after ten seconds without the claim in which each lookup found no result and each check a live marker, and it waits no longer than that and a tick; a claim it wins is completed, its result stored for ten minutes, and if it fails instead no marker is left for the key |
| ClaimService.Scheduler.ClaimOrWait | scheduler/internal/persistence/idempotence_impl.go:166-232 | ends in one of three outcomes; the call holds a claim exactly if it won the marker; without failures a stored result is returned, any error but a timeout means that the marker is gone or the result unreadable, and a timeout that the deadline is past and that, whatever fails, every lookup had found nothing and every marker asked about had been live |
| ClaimService.Scheduler.MarkOrWait | scheduler/internal/persistence/idempotence_impl.go:196-232 | likewise from the SETNX on |
| ClaimService.Scheduler.AwaitIdempotenceCompletion | scheduler/internal/persistence/idempotence_impl.go:118-163 | the polling ends, with a result or an error, and claims nothing; it goes on, up to a timeout, only as long as no lookup finds a result and every check finds a live marker; without failures a timeout comes only after the deadline, and another error only with the marker gone or the result unreadable |
| ClaimService.Scheduler.Poll | scheduler/internal/persistence/idempotence_impl.go:136-162 | one pass waits 200 ms of its own at most, and the next one follows only if the lookup found nothing and the marker was live |
| ClaimService.Scheduler.CheckMarkerExists | scheduler/internal/persistence/idempotence_impl.go:150-158 | the wait goes on only with a live marker before the deadline; without failures it ends because the marker is gone or the deadline past |
| ClaimService.Scheduler.GetSandboxId | scheduler/internal/persistence/idempotence_impl.go:51-65 | without failures and before the deadline the answer is what the store holds: found, not found or unreadable; each answer and each failure leads to the caller's own branch |
| ClaimService.Scheduler.MarkPendingCreation | scheduler/internal/persistence/idempotence_impl.go:68-75 | won exactly if no marker was live, and then the marker is set for 60 seconds and nothing else changes; lost, it changes nothing; on an expired context it does not succeed |
| ClaimService.Scheduler.CreatePod | scheduler/internal/scheduler/service.go:148-154 | success means a pod of a new name, recorded as made by this call; without failures only a malformed or used name is refused |
| ClaimService.Scheduler.CompleteAndDrop | scheduler/internal/scheduler/service.go:156-158 | the call ends with its own sandbox whatever becomes of Complete and Drop; without failures a claim is completed: its result and the way back were stored for ten minutes, and its marker was taken away |
| ClaimService.Scheduler.DropClaim | scheduler/internal/persistence/idempotence.go:75-93 | the result of the call stands whatever becomes of the Drop; without failures a claim that was not completed leaves no marker for its key |
| ClaimService.OthersLeaveCallAlone | scheduler/internal/persistence/idempotence_impl.go:166-232 | over any stretch of a run, steps of others leave a call where it is, and time does not run back |
| PoolOwnership.Conservation | scheduler/internal/sandboxpool/service.go:112-240 | command by command, with failures, lost replies and crashes, each sandbox made for the pool is in exactly one of pending, in hand, ready, popped, lost |
| PoolOwnership.AtMostOneHandOut | scheduler/internal/persistence/redis_pool_store.go:58-72 | no sandbox is handed out twice in any run |
| PoolOwnership.HandedOutOnce | scheduler/internal/persistence/redis_pool_store.go:58-72 | two pops name different sandboxes, and a popped one is in neither set |
| PoolOwnership.PlacesStep | scheduler/internal/sandboxpool/service.go:185-240 | one command moves at most one sandbox, from one place to another |
| PoolOwnership.TodoStep | scheduler/internal/sandboxpool/service.go:185-220 | the sandboxes still to be checked stay pending, each listed once |
| PoolOwnership.ParseAllIsIdentity | scheduler/internal/persistence/redis_pool_store.go:104-113 | listing and parsing generated identifiers skips and changes none |
| PoolOwnership.ParseAllExactly | scheduler/internal/persistence/redis_pool_store.go:104-113 | a sandbox is listed exactly if some member parses to it |
| PoolBounds.Capacity | scheduler/internal/sandboxpool/service.go:149-179 | unless a failed recount misses ready sandboxes or leads to more than there is room for, ready + in hand + pending never exceeds PoolSize, nor pending PoolMaxPending, in any state, pops and other failures anywhere |
| PoolBounds.CapacityWithRecounts | scheduler/internal/sandboxpool/service.go:149-150 | in particular when all recounts succeed |
| PoolBounds.CapacityExactly | scheduler/internal/sandboxpool/service.go:149-179 | a step keeps the bounds, with room for what is being created, if and only if it is not such a recount |
| PoolBounds.FailedRecountOverfills | scheduler/internal/sandboxpool/service.go:149-150 | a run from the empty pool in which a failed recount of the ready set makes a pool of one hold two |
| PoolBounds.FailedPendingRecountOverfills | scheduler/internal/sandboxpool/service.go:149-150 | a run from the empty pool in which a failed recount of the pending set makes two pending where one is the limit |
| PoolBounds.Convergence | scheduler/internal/sandboxpool/service.go:112-182 | undisturbed, the pool holds exactly min(PoolSize, initial + n * PoolMaxPending) after n rounds |
| PoolBounds.FullExactlyAfter | scheduler/internal/sandboxpool/service.go:153-170 | between the rounds of an undisturbed run the pool is full if and only if at least ceil((PoolSize - initial) / PoolMaxPending) rounds are over |
| PoolBounds.HandOutOrder | scheduler/internal/persistence/redis_pool_store.go:44-72 | the stamps of successive pops never decrease over a run of interleaved adds and pops |
| PoolBounds.EarlierLeavesFirst | scheduler/internal/persistence/redis_pool_store.go:58-72 | of two ready sandboxes the earlier, by second and then by identifier, is popped before the other can leave |
| PoolBounds.FirstInFirstOut | scheduler/internal/persistence/redis_pool_store.go:44-72 | over any run, a sandbox ready in one second is popped before any that is stamped for the ready set in a later second |
| PoolBounds.MinExists | scheduler/internal/persistence/redis_pool_store.go:61-65 | a nonempty sorted set has a member that ZPOPMIN takes |
| PoolBounds.LessIsStrictOrder | scheduler/internal/persistence/redis_pool_store.go:61-65 | the tie-break on members is irreflexive, asymmetric, transitive and total |
| PoolBounds.LessExactly | scheduler/internal/persistence/redis_pool_store.go:61-65 | that tie-break is byte order: decided by the first difference, a proper prefix first |
| PoolBounds.Base36Order | scheduler/internal/types/ids.go:127-146 | generated identifiers of one length are in byte order exactly if their clock readings are in order: of two with one stamp the one generated first is popped first |
| PoolBounds.MinIsUnique | scheduler/internal/persistence/redis_pool_store.go:61-65 | ZPOPMIN has no choice: the first member is unique |
| PoolService.SandboxPool.MaintainPool | scheduler/internal/sandboxpool/service.go:112-182 | a call without the lock changes nothing; one with it always releases it, and completes a round exactly if the first counts succeed; without failures, pending afterwards is exactly what was pending and not ready, and what was made; what was pending and ready is ready or popped; nothing is lost; and if the names offered are fresh and enough, so many are made that one of the two limits is reached and none exceeded, or none if one had been reached, counted beside the ready ones seen in between |
| PoolService.SandboxPool.CheckPendingSandboxes | scheduler/internal/sandboxpool/service.go:185-220 | whatever fails, no sandbox that is not ready leaves the pending set, and only ready ones of it are added to the ready set; without failures all that are ready leave it and none is lost |
| PoolService.SandboxPool.CheckOne | scheduler/internal/sandboxpool/service.go:193-217 | ends with this sandbox dealt with and the rest of the listing ahead; without failures a ready one moves to the ready set, with the second of the move for its score |
| PoolService.SandboxPool.Recount | scheduler/internal/sandboxpool/service.go:149-170 | without failures as many are to be created as the two limits admit beside the pending ones there are and the ready ones there were at the recount: none if a limit is reached, and otherwise up to the first limit |
| PoolService.CreatesEnough | scheduler/internal/sandboxpool/service.go:152-171 | the number computed from the two counts reaches one of the limits, if neither is reached already, and exceeds none |
| PoolService.SandboxPool.ListPending | scheduler/internal/persistence/redis_pool_store.go:95-114 | the listing names every pending sandbox once and no other |
| PoolService.SandboxPool.CreateAll | scheduler/internal/sandboxpool/service.go:173-179 | makes at most the number decided on, goes on after failures, and leaves out no offered name; without failures all it makes becomes pending |
| PoolService.SandboxPool.CreatePoolSandbox | scheduler/internal/sandboxpool/service.go:223-240 | makes the scheduled sandbox, or nothing, and counts as one of the round's creations either way; without failures what is made becomes pending |
| PoolService.SandboxPool.GetSandbox | scheduler/internal/sandboxpool/service.go:79-84 | takes the first ready sandbox, never handed out before, or reports an empty pool, and starts one maintenance goroutine whatever came of it |
| PoolService.SandboxPool.TriggerMaintenance | scheduler/internal/sandboxpool/service.go:105-109 | a started goroutine, when it runs, goes through one round, or does nothing if another holds the lock |
| PoolService.BackgroundLeavesMaintainerAlone | scheduler/internal/sandboxpool/service.go:112-182 | pops and time leave everything but the ready set and the clock as the maintainer left it |
| PoolService.ParseMembers | scheduler/internal/persistence/redis_pool_store.go:104-113 | the loop yields exactly the members that parse, in order |
| Pipelines.ForwardIsMirroredOrOwed | scheduler/internal/persistence/redis.go:135-153 | under every interleaving, and for a project that parsing leaves alone or refuses whatever others are called, forward[p] = s has reverse[s] = p with a deadline no earlier, unless a set still owes the reverse write or a removal the forward delete |
| Pipelines.QuiescentMapsAgree | scheduler/internal/persistence/redis.go:181-220 | with no pipeline open such a project's live entry is mirrored live, and no other project's names its sandbox |
| Pipelines.MirrorExactly | scheduler/internal/persistence/redis.go:162-200 | no run, at any point, leaves p's forward entry neither mirrored nor owed, if and only if parsing leaves p alone or refuses it |
| Pipelines.ForwardIsInjective | scheduler/internal/persistence/redis.go:135-153 | in every state, and whatever projects are called, two forward entries never name one sandbox |
| Pipelines.PrefixedProjectLosesMirror | scheduler/internal/persistence/redis.go:162-200 | for every identifier that parsing changes, a run after which a released sandbox is still the project's live forward entry |
| Pipelines.MappingStep | scheduler/internal/persistence/redis.go:130-220 | every single command keeps that invariant for such a project |
| Pipelines.DrainIsAtomic | scheduler/internal/persistence/redis.go:135-153 | a pipeline whose commands run without interference has the effect of the one-step operation |
| Pipelines.InterleavingLosesIndexEntry | scheduler/internal/persistence/redis.go:198-204 | a run of interleaved pipelines after which a live project is missing from the enumeration |
| Pipelines.LapseLosesIndexEntry | scheduler/internal/persistence/redis.go:144-147 | a run without removals after which a live project is missing from the enumeration |
| IndexProofs.IndexExactly | scheduler/internal/persistence/redis.go:144-204 | a command keeps p, if live, indexed or about to be, if and only if it is neither the SREM of p while no set is about to add it nor a lapse of the index under such a p |
| IndexProofs.SettledIsListed | scheduler/internal/persistence/redis.go:267-324 | under every interleaving without such a step for a raw p, and whatever others are called, the enumeration says of p what a lookup says, whenever no set of p is in progress |
| IndexProofs.ListedExactly | scheduler/internal/persistence/redis.go:284-320 | it does so in all such runs if and only if parsing leaves p alone |
| LogProofs.LogExactly | scheduler/internal/persistence/redis.go:150-207 | when names come through, a command keeps it that a subscriber agrees with the store about p or a pipeline of p has yet to publish, if and only if it is not the last pipeline of p in progress announcing what is no longer so |
| LogProofs.SettledLogAgrees | scheduler/internal/persistence/redis.go:237-258 | under every interleaving without such a step the subscriber agrees with the store about p whenever no pipeline of p has yet to publish |
| LogProofs.InterleavingMisordersLog | scheduler/internal/persistence/redis.go:135-153 | a run of two sets of one project after which the store and the subscriber name different sandboxes |
| IndexProofs.QuiescentIndexAgrees | scheduler/internal/persistence/redis.go:267-324 | when parsing leaves all names alone, no live project was taken out of the index and no pipeline is open, the enumeration is exactly the live forward map |
| ProjectStore.RedisStore.SetProjectSandbox | scheduler/internal/persistence/redis.go:130-159 | the new store is the old one after as many commands of the pipeline as take effect; success means that all did, and were acknowledged |
| ProjectStore.RedisStore.RemoveSandboxMapping | scheduler/internal/persistence/redis.go:181-220 | likewise, with or without a mapped project; it changes nothing on a failed lookup or an unreadable entry, and success means that the sandbox is marked |
| ProjectStore.RedisStore.FindProjectForSandbox | scheduler/internal/persistence/redis.go:162-178 | the live reverse entry, parsed; absent entries are told apart from unreadable ones and from errors |
| StoreProofs.ReleasedExactly | scheduler/internal/persistence/redis.go:93-100 | at every point of every timed history, whatever things are called, a sandbox counts as released if and only if its last release that got past its lookup is less than five minutes ago |
| StoreProofs.ReleasesParse | scheduler/internal/persistence/redis.go:172-186 | every release gets past its lookup unless some project is called `project-` and nothing more, or nothing at all |
| ProjectStore.RedisStore.GetAllProjectSandboxMappings | scheduler/internal/persistence/redis.go:267-324 | the two loops compute the enumeration through the index set, in whatever order they visit it; a failed listing, or a failed fetch when there is anything to fetch, is an error |
| StoreProofs.IndexAgreement | scheduler/internal/persistence/redis.go:267-324 | after any timed history of sets and removals, whatever others are called, the enumeration says of a raw project what a lookup says |
| StoreProofs.ListedIsFound | scheduler/internal/persistence/redis.go:299-321 | nothing is enumerated that a lookup would not find, whatever the members of the index are called |
| StoreProofs.MappingsAreLive | scheduler/internal/persistence/redis.go:267-324 | with names that parsing leaves alone and live entries indexed, the enumeration is the live forward map |
| StoreProofs.OpKeepsInv | scheduler/internal/persistence/redis.go:144-147 | each operation, with names of any kind, keeps every live project in an index set that outlives its entry |
| StoreProofs.LookupsExactly | scheduler/internal/persistence/redis.go:113-178 | a lookup finds nothing exactly if the entry is absent or expired, and is an error exactly if a live entry is empty or a bare prefix |
| StoreProofs.SetLastsADay | scheduler/internal/persistence/redis.go:113-159 | after a set the sandbox is found for the project, and the project for the sandbox, for exactly 24 hours; nothing found for others changes |
| StoreProofs.SetIsListedForADay | scheduler/internal/persistence/redis.go:130-159 | and for exactly those 24 hours the enumeration has it, if parsing leaves the project alone |
| StoreProofs.ReleaseForgets | scheduler/internal/persistence/redis.go:181-220 | after a release neither finds the other, the project is not enumerated, and the sandbox counts as released for exactly five minutes; nothing found for others changes |
| StoreProofs.LogReplay | scheduler/internal/persistence/redis.go:237-258 | folding the handler over the parsed messages rebuilds the forward map, expiry aside, at every point of every history |
| StoreProofs.LogReplayIsLive | scheduler/internal/persistence/redis.go:150-207 | when no time passes, the map rebuilt is the live forward map |
| StoreProofs.LateSubscriber | scheduler/internal/xds/server.go:116-130 | a subscriber that loads the mappings, misses the messages until it is subscribed and follows the later ones is right about every project the missed ones were not about, or a later one is about; of any other it knows what it loaded |
| StoreProofs.PromptSubscriber | scheduler/internal/xds/server.go:423-469 | without missed messages it routes every live project rightly and keeps no route that was not stored |
| StoreProofs.LogChanges | scheduler/internal/persistence/redis.go:150-207 | the message an operation publishes, once parsed and handled, is the change the operation made |
| Messages.UpdateRoundTrip | scheduler/internal/persistence/redis.go:150-258 | a printed update parses back if and only if the project is nonempty, without `:` and project prefix, and the sandbox nonempty without its prefix |
| Messages.RemovalRoundTrip | scheduler/internal/persistence/redis.go:207-251 | a printed removal parses back if and only if the project is well-formed |
| Messages.ParseExactly | scheduler/internal/persistence/redis.go:237-258 | a payload of three parts is a removal exactly if the second is `remove`, and otherwise an update, whatever its kind; it is skipped if the project, or the sandbox of an update, does not parse |
| Messages.ShortIsSkipped | scheduler/internal/persistence/redis.go:237-240 | payloads with fewer than two separators are skipped |
| Messages.ParsedProjectHasNoSeparator | scheduler/internal/persistence/redis.go:237-245 | no payload at all yields a project with a separator, or an empty one |
| Routes.Service.UpdateSnapshot | scheduler/internal/xds/server.go:188-420 | for every order of its loops, first match and then the cluster of that name send a mapped project to the host of its own service on port 8000, to which no other request is sent, and all else to the activator; each cluster referred to is defined once, and no other is |
| Routes.Service.AddOrUpdateRoute | scheduler/internal/xds/server.go:162-170 | the map gains this route, and the snapshot serves the new map |
| Routes.Service.RemoveRoute | scheduler/internal/xds/server.go:173-181 | the map loses this route, and the snapshot serves the new map |
| Routes.Service.LoadInitialRoutes | scheduler/internal/xds/server.go:423-441 | all stored mappings are taken over, and served |
| Routes.Service.Receive | scheduler/internal/xds/server.go:444-469 | after any messages the map is their replay, and the snapshot serves it |
| Routes.ClusterNamesInjective | scheduler/internal/xds/server.go:237 | distinct projects have distinct cluster names, none that of the activator |
| Routes.ServiceHostsDiffer | scheduler/internal/k8sclient/client.go:493-496 | the hosts of two projects are the same only if the projects are |
| Routes.ServiceHostLabels | scheduler/internal/k8sclient/client.go:493-496 | a project's host is that of the service named by its prefixed identifier, in the namespace, and never the activator's; without dots in the identifier that name is its first label |
| Routes.AddDefaultRoute | scheduler/internal/xds/server.go:311-326 | the fallback route at the end completes the table and takes nothing from a mapped project |
| Ids.EncodeBase36 | scheduler/internal/types/ids.go:127-146 | the loop and the reversal in place yield the base-36 numeral, for every int64 |
| Ids.Base36RoundTrip | scheduler/internal/types/ids.go:127-146 | decoding gives the number back; at most 13 digits, no leading zero, and the cut at 20 never applies |
| Ids.Base36Injective | scheduler/internal/types/ids.go:127-146 | distinct numbers have distinct encodings |
| Ids.GenerateSandboxId | scheduler/internal/types/ids.go:69-82 | short of overflow, the identifier is the numeral of clock plus random byte; beyond it, empty |
| Ids.ReverseRunes | scheduler/internal/types/ids.go:140-143 | reverses the array in place |
| Ids.Base36Parses | scheduler/internal/types/ids.go:31-41 | a generated identifier parses to itself, with or without its prefix |
| Ids.ParseIsIdentity | scheduler/internal/types/ids.go:31-41 | parsing leaves an identifier alone if and only if it is nonempty and has no prefix |
| Ids.ParseInvertsWithPrefix | scheduler/internal/types/ids.go:54-59 | parsing undoes WithPrefix for every nonempty identifier |
| Ids.ApiProjectIdIsRaw | scheduler/internal/types/ids.go:98-100 | the API takes every nonempty project identifier unchanged |
| Timed.KeysAreSeparate | scheduler/internal/persistence/idempotence_impl.go:36-48 | two roles never form the same Redis key, so each family of keys is a table of its own |
| Cleanup.Scheduler.CleanupExpiredSandboxes | scheduler/internal/scheduler/service.go:173-231 | releases, in order, exactly what one filter over all pods listed before a failure would, going on after releases that fail in the store or in the cluster, returns their number, and terminates |
| Cleanup.Scheduler.ReleaseBatch | scheduler/internal/scheduler/service.go:195-205 | every name of a page that parses is released, in order, whatever became of the others |
| Cleanup.Scheduler.ReleaseSandbox | scheduler/internal/scheduler/service.go:161-170 | store and cluster are both tried, and a failure of one does not keep the other from acting |
| Cleanup.Scheduler.IsSandboxGone | scheduler/internal/scheduler/service.go:258-278 | a live marker is enough; without one, or when it cannot be read, the cluster decides, and its error is returned |
| Cleanup.GetPodsOlderThan | scheduler/internal/k8sclient/client.go:680-717 | one page, filtered, with the next page's token even when the filtered page is empty |
| Cleanup.ExpiredExactly | scheduler/internal/scheduler/service.go:195-204 | a sandbox is released if and only if some pod older than the cutoff bears its name |
| Cleanup.ExpiredOnce | scheduler/internal/scheduler/service.go:195-204 | with distinct prefixed pod names no sandbox is released twice |
| Cleanup.ReleasedAreMarked | scheduler/internal/scheduler/service.go:161-170 | every sandbox one of whose releases succeeded is marked for five minutes from then on, however long the pass takes, and the store's invariant holds wherever the other releases were cut off |
| Cleanup.ReleasedAreForgotten | scheduler/internal/scheduler/service.go:161-170 | at the end of the pass no sandbox one of whose releases succeeded is found for a project, nor is anything found for the project it had at its release |
| Cleanup.PodsLeft | scheduler/internal/k8sclient/client.go:270-290 | a pod is left if and only if every attempt to delete it failed |
| Cleanup.ConcatPage | scheduler/internal/k8sclient/client.go:702-708 | filtering page by page equals filtering the whole list |

## Left out

- Real Redis, Kubernetes, gRPC and Envoy: a timed store, a set of pods, a paged listing and first-match evaluation stand for them.
- Clocks and randomness: parameters, or steps that let time pass; ZADD scores are whole seconds, as in the source.
- Pod specifications, configuration, dependency wiring, logging, the mock client and the mock sandbox: data plumbing.
- The pod watcher and its event channel: a release may begin at any time instead.
- The activator's proxy and retry loop: it would add only easy members.
- Lock reentrancy: `UpdateSnapshot` takes a read lock while its callers hold the write lock (scheduler/internal/xds/server.go:162-190); the handler is modelled as the one step it is meant to be.
- The listener and connection-manager messages of the snapshot, and its version number.
- WaitForSandboxReady and IsSandboxReady: their answers are parameters.
- The host name in the answer of GetProjectSandbox: it is `Routes.ServiceHost` of the project.
- The order of the pending listing, by stamp in the code: the maintainer may look at the pending sandboxes in any order.
- Deleting the pod in ReleaseSandbox, as a step of the whole system: pods may disappear at any time there. `Cleanup` has it.
- Delivery by pub/sub: messages that are delivered arrive in order. In the code the subscription is closed when the subscribing function returns (scheduler/internal/persistence/redis.go:226), and messages between loading and subscribing are missed (scheduler/internal/xds/server.go:119-129), which `StoreProofs.LateSubscriber` takes into account.
- A pipeline that fails half-way is one that is never continued; QuiescentMapsAgree asks that every pipeline has run to its end.
- ProjectService.Service.FinishSchedule: waits for its call only as long as others take to step in between, so a call that has not ended by then counts as given up; ClaimService has the call itself, which always ends.
- ClaimProofs.MutualExclusion: assumes that claimers act before their marker lapses and that replies to completions arrive; `ClaimProofs.ExclusiveAt` assumes no more than it must.
- LogProofs.SettledLogAgrees: assumes that all names are such that messages come through, since a message about an ill-formed name can be taken for one about another project.
- StoreProofs.LogReplay: takes each pipeline as one step, and compares with the forward map without expiry, because no message is published when an entry expires.
- StoreProofs.LateSubscriber: takes each pipeline as one step.
- ClaimProofs.LateCallIsServed: speaks of calls without errors, because a call whose lookup fails goes on to create without a claim (scheduler/internal/scheduler/service.go:137-145).
- PoolBounds.Convergence: assumes that nothing fails or is popped and that every pending sandbox is ready when asked about.
- IndexProofs.QuiescentIndexAgrees: leaves out runs with an SREM or a lapse that uncovers a live project, because those break it; a later set of that project would mend it.
- ReleaseProofs.FastPathNeverRevives: leaves out requests whose read of the marker fails, because those rely on the pod alone.
- ProjectService.Service.GetProjectSandbox: the inside of ScheduleSandbox is taken as the steps of its call, which any step of the system may advance; ClaimService shows the method that makes them.
