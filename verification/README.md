# Verified model of the Cohestra control plane

A Dafny 4.11 model of the parts of Cohestra, a control plane for Apache Flink deployments, whose
promises span many calls or many workers. `dafny verify dfyconfig.toml` checks all of it.

* **Capacity leases.** Each node pool's leases live in one Kubernetes ConfigMap. `LeaseProtocol` is
  the protocol as interleaved steps of any number of workers (get, create race, list, decide,
  compare-and-swap, conflict, failure), each with its own clock. `LeaseSpec` is one operation on
  its own, `LeaseTheorems` proves serializability, budget safety and the absence of lost updates
  for every run, `LeaseProgress` that attempts are lost to writes of others only, `LeaseRuns` builds
  runs from calls, and `LeaseStore` is the code of one worker, with other workers' writes landing
  before each of its requests; `LeaseCalls` is what its requests are as moves of the protocol.
  `SimulatedLeases` is the in-process store and the proof that the two accept and hold the same,
  `StoresDiffer` the runs in which they part.
* **The deployment actor and its rollouts.** `Rollout` gives one rollout as a function of its input
  and of what the outside world answers, with the trace of its requests; `RolloutWorkflow` is the
  code, proved to do just that. `Actor` gives the long-lived actor as a function: pending queue,
  idempotency keys, nine command types, version history, and continue-as-new, which truncates
  history and takes shared objects apart. `DeploymentActor` is the object with its pointers and
  loops, proved equal to it. `ActorTheorems` holds the invariants, `ActorGuarantees` what an
  operator may rely on in every reachable state, `ActorMemory` which commands are executed and
  `ActorHealth` when the last healthy version is healthy; `ActorCommands` says what each command asks
  for and when it is refused. `Domain` is classification, gate and admission.
* **Fleet listing.** `Listing` walks backend pages and emits filtered client pages with resumable
  cursors; `WorkflowIds` prints and parses workflow IDs.
* **Printers and parsers.** `ProgramArgs` and `SortedKeys`: the Go printer of job arguments and the
  Java program that reads them, and the canonical list `hashMap` digests. `JsonText`, `JsonWriter`,
  `JsonParser`, `JsonRoundTrip` and `SpecRoundTrip`: the Java SDK's JSON writer and reader.
  `JsonGrammar` is what the reader makes of any JSON text, `JsonLoose` what it makes of texts that are
  none, `JsonStandard` where writer and reader depart from RFC 8259.

Where the source updates something in place, so does the model (`LeaseStore`, `SimulatedLeases`,
`RolloutWorkflow`, `DeploymentActor`, `JsonWriter`, `JsonParser`, and the loops of `Listing` and
`ProgramArgs`): its methods are proved equal to a function, and the promises are proved of that
function over all inputs, runs or interleavings. The outside world is a parameter everywhere:
clocks, the answers of activities, other workers' writes, iteration orders, the cut of pages.
Go's 64-bit `int` wraps around in the slot arithmetic; Java strings are UTF-16 code units.

## Findings

* The slot budget of the ConfigMap store can be exceeded in three ways: by acquiring a held lease
  again, which is never refused (`ReacquireCanExceedBudget`), by a request that overflows the running
  total (`OverflowingRequestIsAdmitted`), and by releasing a lease of negative slots that had made
  room for others (`NegativeSlotsExceedBudget`). There is no fourth: `BudgetOverRuns` and
  `BudgetSafetyExact` give the exact condition for all requests, `BudgetSafety` one on requests.
* A key stops a repeated command for as long as the actor holds a record of it, which is until a
  restart finds fifty later operations, and then it runs again. `ExecutedExactly` says when as a
  function of the commands alone, `KeyRunsTwice` is a run in which it happens.
* After a deployment, `LastHealthyVersion` is the same object as `CurrentVersion`, so a manual resume
  overwrites its health summary, even with one that fails the gate (`LastHealthyCanFail`); it no
  longer does after a restart (`SharedExactly`, `ResumeHealthExact`, `LastHealthyFailsExactly`). The
  recorded history is never touched.
* A rollback always counts as approved (`UnapprovedRollbackRecorded`), which `AdmissionOverRuns`
  therefore has to allow for.
* The JSON writer escapes the keys of maps but not those passed to `field` and `object`; such a key
  survives exactly when it contains neither quote nor backslash (`RawKeyRoundTripExact`,
  `QuoteInKeyLost`).
* The writer leaves control characters other than tab, newline and carriage return as they are, which
  section 7 of RFC 8259 does not allow; the string is standard exactly when there are none
  (`EscapeStandardExact`, `ControlCharacterNotEscaped`), and a whole document when
  `DocStandardExact` says so.
* The reader takes the escapes for backspace and form feed for the letters b and f
  (`StandardStringExact`, `BackspaceMisread`), and refuses integers that are no longs
  (`StandardTextReads`).
* The reader takes any character for a colon, does without commas, and reads an object or array that
  ends behind a comma; it refuses a comma before a closing brace (`LooseTextReads`, `LooseArrayReads`).
* A release removes an ID from one pool, the first in the listing that holds it
  (`ReleaseLeavesOtherPool`); it is complete exactly when no other pool held the ID
  (`ReleasedEverywhereExact`), which is so when IDs are fresh (`FreshIdInOnePool`).

## Model

| member | source | states |
|---|---|---|
| `LeaseTheorems.Serializable` | backends/kubernetes/leases.go:39-98 | In every state of every run, with any number of workers and any interleaving of load, create race, update, conflict and list, the stored maps are those of the committed operations run one at a time in commit order; each commit belongs to one call, and every finished call matches: a success is exactly one commit made during the call, a refusal was right about a state its pool was in at its load, a call that gave up on conflicts committed nothing, and one that failed with a server error committed once or not at all |
| `LeaseTheorems.RealTimeOrder` | backends/kubernetes/leases.go:51-70 | The serial order respects real time: a call that returned before another was issued comes before it, strictly so if it committed |
| `LeaseTheorems.BudgetSafety` | backends/kubernetes/leases.go:56-69 | In every reachable state the slots of all leases in a pool, expired ones included, are within the budget, whatever the clocks say, provided requests are non-negative, small enough not to overflow, and acquiring a lease that is held asks for no more slots than it holds |
| `LeaseTheorems.BudgetOverRuns` | backends/kubernetes/leases.go:39-98 | For every run of any requests: up to any state all pools stayed within the budget if and only if every commit so far fitted its pool, that is, an admitted fresh lease did not overflow the running total, one that replaced a held lease fitted in its place, and a released lease of negative slots left a pool within the budget |
| `LeaseTheorems.BudgetSafetyExact` | backends/kubernetes/leases.go:56-69 | Over every serial commit history, of leases of any slots, the budget was never exceeded if and only if every commit fitted its pool |
| `LeaseTheorems.BudgetStep` | backends/kubernetes/leases.go:56-69 | One more commit, of any lease, keeps a pool within its budget if and only if it fits |
| `LeaseTheorems.NothingLost` | backends/kubernetes/leases.go:51-70 | A pool holds a lease if and only if some commit put it there and no later commit released it, replaced it, or pruned it with a clock past its expiry |
| `LeaseTheorems.CommittedLeaseStays` | backends/kubernetes/leases.go:51-70 | With fresh lease IDs, a committed lease is in its pool if and only if no later commit to that pool released it or pruned it with a clock past its expiry |
| `LeaseTheorems.GrantedLeaseLasts` | backends/kubernetes/leases.go:39-50 | Over every run, in terms of what the caller asked for: a lease acquired for a time to live and not acquired again is in its pool if and only if no later commit there released it or had a clock past the reading of its request plus that time |
| `LeaseTheorems.ReleasedStaysReleased` | backends/kubernetes/leases.go:77-98 | With fresh lease IDs, a released lease is in no pool ever after, even where an acquire that loaded before the release commits after it |
| `LeaseTheorems.ReleasedEverywhereExact` | backends/kubernetes/leases.go:87-96 | Right after a release has committed, its ID is in no pool if and only if no pool but the one it was removed from held it |
| `LeaseTheorems.FreshIdInOnePool` | backends/kubernetes/leases.go:77-98 | With fresh lease IDs no two pools hold the same ID in any reachable state, so every release is complete |
| `LeaseProgress.GivesUpOnlyToRivals` | backends/kubernetes/leases.go:51-70 | A call that gives up on conflicts saw, between its start and its end, at least as many writes of other calls to the pools it was after as it has attempts, and made none itself |
| `LeaseProgress.ConflictHasRival` | backends/kubernetes/leases.go:142-154 | An update that conflicts has lost to a write that another call got through since the load |
| `LeaseProgress.AttemptsLeft` | backends/kubernetes/leases.go:51-70 | In every reachable state a call has from one to five attempts left |
| `LeaseProgress.FailsOnlyOnError` | backends/kubernetes/leases.go:100-140 | A call ends in failure only when one of its own requests failed: losing a race, finding nothing and being refused are no failures |
| `LeaseRuns.AcquireAlone` | backends/kubernetes/leases.go:39-75 | From any reachable state, an acquire that its pool admits and that runs alone commits exactly itself, creating the pool if need be |
| `LeaseRuns.ReleaseAlone` | backends/kubernetes/leases.go:77-98 | From any reachable state, a release of a held lease that runs alone commits exactly itself and reports success |
| `LeaseRuns.NegativeSlotsExceedBudget` | backends/kubernetes/leases.go:65-68 | A concrete run with a budget of 10 that ends with 110 slots in a pool |
| `LeaseRuns.OnlyTheReleaseDoesNotFit` | backends/kubernetes/leases.go:56-69 | In it every acquire fitted its pool; the release of a lease of negative slots did not |
| `LeaseRuns.ReleaseLeavesOtherPool` | backends/kubernetes/leases.go:87-96 | A concrete run in which a release succeeds and another pool still holds the ID |
| `LeaseProtocol.StepKeepsInv` | backends/kubernetes/leases.go:39-154 | Each step of each worker keeps the protocol invariant: the store replays its log, snapshots are past states of their pool, versions identify contents |
| `LeaseProtocol.RunKeepsInv` | backends/kubernetes/leases.go:39-154 | That invariant holds in every state of every run from the empty store |
| `LeaseProtocol.CommitIsSerial` | backends/kubernetes/leases.go:51-70 | An update that passes its version check has the same effect as the whole operation run alone at that moment |
| `LeaseSpec.AdmitWithinBudget` | backends/kubernetes/leases.go:56-69 | An accepted acquire, of any pool and any lease, leaves the pool within the budget if and only if the lease fits |
| `LeaseSpec.ReacquireCanExceedBudget` | backends/kubernetes/leases.go:65-68 | A concrete pool where re-acquiring a stored lease with more slots is accepted and exceeds the budget |
| `LeaseSpec.OverflowingRequestIsAdmitted` | backends/kubernetes/leases.go:65-68 | Every fresh request whose slots overflow the 64-bit running total is accepted and exceeds the budget |
| `LeaseSpec.SlotsMonotone` | backends/kubernetes/leases.go:56-64 | Pruning non-negative leases never increases the reserved slots, and they are never negative |
| `LeaseSpec.GrantHolds` | backends/kubernetes/leases.go:39-50 | A requested lease survives a pruning pass if and only if its clock is not past the reading of the request plus the time to live |
| `LeaseSpec.GrantReserves` | backends/kubernetes/leases.go:39-50 | It names its ID, pool and owner and reserves the slots, memory and CPU of all its task managers, the integers wrapped to 64 bits |
| `LeaseSpec.AdmitsExactly` | backends/kubernetes/leases.go:56-69 | Without overflow an acquire goes through if and only if its ID is held unexpired or the unexpired leases leave room for it, up to the budget and including it; a refusal reports the slots reserved |
| `LeaseSpec.PoolNames` | backends/kubernetes/leases.go:28-37 | The names of the ConfigMaps and the default of the budget |
| `LeaseStore.PruneAndSum` | backends/kubernetes/leases.go:57-64 | The loop keeps exactly the unexpired leases and returns their total slots as a wrapped 64-bit sum, in whatever order the map is iterated |
| `LeaseStore.LeaseStore.Load` | backends/kubernetes/leases.go:100-140 | Returns the pool as stored, creating an empty one if missing, also when the create is lost to a race; an error leaves no trace |
| `LeaseStore.LeaseStore.Acquire` | backends/kubernetes/leases.go:39-75 | With other workers writing before every request: a success is one serial acquire on the pool as the winning update found it and changes nothing else; a refusal was right about the pool as loaded; after losing every retry nothing has changed; the lease expires its time to live after the reading it began with. Where the writes of others are moves of the protocol, the server has been through a run of the protocol in which this call was made and ended with the corresponding outcome (acquired, rejected with the same count, gave up, failed) |
| `LeaseStore.LeaseStore.Release` | backends/kubernetes/leases.go:77-98 | A success removed the lease from one pool that held it and changed nothing else, or no pool held it at the listing; a failure changed nothing. Where the writes of others are moves of the protocol, the server has been through a run of the protocol in which this call was made and ended released, with nothing to release, or given up |
| `LeaseStore.LeaseStore.TryAcquire` | backends/kubernetes/leases.go:51-70 | The retried function: one load, one decision and one update are the moves of one attempt of the call, with the same answer |
| `LeaseStore.LeaseStore.TryRelease` | backends/kubernetes/leases.go:78-97 | The retried function: one list and one update are the moves of one attempt of the call |
| `LeaseStore.ApiServer.Update` | backends/kubernetes/leases.go:142-154 | Compare-and-swap: succeeds if and only if the stored version is still the one loaded, and then replaces that map only; the call moves on as the protocol says |
| `LeaseStore.ApiServer.Settle` | backends/kubernetes/leases.go:18-26 | Between two requests any writes of others land; they count as protocol moves if and only if playing the claimed moves leads to the same ConfigMaps and versions |
| `StoresDiffer.BlankNamesPart` | activities/simulated.go:60-69 | A concrete run after which one store grants and the other refuses, because a pool without a name is the default pool to one of them only |
| `StoresDiffer.ReusedIDsPart` | activities/simulated.go:60-69 | The same for an ID that is in use, which only one of them takes for a held lease |
| `StoresDiffer.ClocksGoingBackPart` | activities/simulated.go:53-58 | The same for a clock that goes back, because one of them prunes all pools at once |
| `SimulatedLeases.SimulatedActivities.Prune` | activities/simulated.go:53-58 | The loop keeps exactly the unexpired leases |
| `SimulatedLeases.SimulatedActivities.ReservedSlots` | activities/simulated.go:60-65 | The loop sums the slots of one pool |
| `SimulatedLeases.SimulatedActivities.AcquireCapacityLease` | activities/simulated.go:46-84 | Grants the lease if and only if the unexpired leases of its pool leave room for it; the new map is the pruned one, with the lease if granted, which expires its time to live from now |
| `SimulatedLeases.SimulatedActivities.ReleaseCapacityLease` | activities/simulated.go:86-94 | Removes exactly that lease |
| `SimulatedLeases.GrantsExactly` | activities/simulated.go:60-76 | Without overflow the in-process store grants a lease if and only if its pool then has at most 4096 slots |
| `SimulatedLeases.SamePoolSeen` | backends/kubernetes/leases.go:56-64 | When both stores agree on unexpired leases, they compute the same reserved slots for a pool at any later time, although they prune at different times |
| `SimulatedLeases.SameAnswer` | backends/kubernetes/leases.go:65-69 | Then the per-pool store accepts a fresh acquire if and only if the single map does |
| `SimulatedLeases.SerialRunsAgree` | activities/simulated.go:46-94 | Over any serial run with fresh IDs, non-blank pool names and a non-decreasing clock, the two stores hold the same unexpired leases pool by pool |
| `SimulatedLeases.SerialRunsAcceptAlike` | activities/simulated.go:46-94 | In such a run each acquire is accepted by the per-pool store if and only if the single map accepts it |
| `SimulatedLeases.ConcurrentRefinesSingleMap` | activities/simulated.go:46-94 | Under any interleaving whose commits form such a run, the ConfigMaps hold the same unexpired leases as the single map after the committed operations |
| `Domain.ClassificationMeans` | domain/change.go:29-81 | What each demand of the classification depends on, independent of the order of its cases: risk, savepoint, approval, lease |
| `Domain.GateMeans` | domain/change.go:83-103 | The gate passes if and only if all six conditions hold |
| `Domain.FailureMeans` | domain/change.go:83-103 | The failure reported is that of the first condition that does not hold |
| `Domain.SlotsMean` | domain/model.go:34-36 | The slots of a shape are task managers times slots per manager where that is a 64-bit integer, and differ by a multiple of 2^64 otherwise |
| `Domain.DefaultPolicyMeans` | domain/model.go:107-119 | Production asks for approval and GitOps; all other defaults are the same everywhere |
| `Domain.AdmissionMeans` | activities/validate.go:15-39 | A spec is admitted if and only if it is digest-pinned, has sound parallelism, is not a rejected change, has the approval it needs, and is not a forbidden incident patch |
| `Domain.RefusalMeans` | activities/validate.go:15-39 | Which rule a refusal names |
| `Text.ContainsMeans` | activities/validate.go:20 | The digest marker is found if and only if the text is something, the marker, and something |
| `Rollout.RolloutDisciplined` | workflows/rollout.go:30-134 | On every exit path and for all answers: validation comes first; a granted lease is released exactly once, last; the savepoint precedes the first apply and its URI is passed on; at most two applies, the second only after a failed gate and with the previous ID and spec; new resources of an existing version are applied with a lease only |
| `Rollout.AdmittedResourceChangeTakesLease` | domain/change.go:40-80 | An admitted change of the resource shape of an existing version always requires a lease |
| `Rollout.LowerMaxParallelismNeverApplied` | domain/change.go:40-46 | Lowering max parallelism of an existing version without an approved fresh start fails without any apply |
| `Rollout.RolloutResultIsHealthy` | workflows/rollout.go:46-52 | A successful rollout was admitted, and returns the target as version current+1 with its digests, marked healthy and past the gate |
| `Rollout.RolloutStaysInStep` | workflows/rollout.go:87-131 | However a rollout ends, and although failed applies may have taken effect, the version last applied is the one the actor goes on with (same spec) or the one after it |
| `Rollout.LeasedShape` | workflows/rollout.go:71-133 | The part between acquiring and releasing the lease has the apply and savepoint order, and neither validates nor touches leases |
| `Rollout.AppliesCarryState` | workflows/rollout.go:50-124 | In every rollout, every apply starts from the savepoint its version names; the first carries the next version of the target with the savepoint just taken; a restoring apply carries the current version again, with its own savepoint, or if it has none with the one taken before, and names the applied target as it was observed as the version it replaces |
| `Rollout.JudgedByApplied` | workflows/rollout.go:98-109 | The only observation of a rollout comes right after an answered first apply and looks at the version applied |
| `Rollout.EarlyExits` | workflows/rollout.go:34-85 | The exact requests of a rollout whose validation, lease or savepoint fails, the release of a granted lease included |
| `Rollout.RolloutSucceedsExactly` | workflows/rollout.go:30-134 | A rollout succeeds if and only if validation, lease and savepoint where required, apply, observation and gate all go well; then its version, savepoint and lease are those of these steps |
| `Rollout.RolloutErrorMeans` | workflows/rollout.go:30-134 | A failed rollout reports the gate, with the previous version restored, not restored or not there, if and only if the gate was reached; otherwise the admission rule broken or the failed activity |
| `RolloutWorkflow.Savepoint` | workflows/savepoint.go:15-35 | The savepoint child, request by request, does what the specification says |
| `RolloutWorkflow.ApplyObserveGate` | workflows/rollout.go:87-133 | Apply, observe, gate and restore, field by field with early returns, give the specified outcome and requests |
| `RolloutWorkflow.RunRolloutWorkflow` | workflows/rollout.go:30-134 | The whole workflow gives the specified outcome, and adds exactly the specified requests to the trace, the deferred release included |
| `RolloutWorkflow.Backend.Request` | activities/simulated.go:96-112 | One request is recorded; an apply that takes effect makes its version the running one |
| `ActorGuarantees.ExactlyOnce` | workflows/deployment_actor.go:46-69 | Over any number of generations and repeated signals, any 51 consecutive executed operations have distinct idempotency keys, and every received command has been executed, by itself or as an earlier command with its key |
| `ActorMemory.ExecutedExactly` | workflows/deployment_actor.go:63-69 | In every run a received command is executed if and only if its key is not in a window that depends on the commands received before and on nothing else: a key enters when it is not there, and a restart keeps the last fifty |
| `ActorMemory.MemoryIsWindow` | workflows/deployment_actor.go:41-60 | In every reachable state the keys of the remembered operations are that window, and the event count is the number of commands since the last restart |
| `ActorMemory.RefusedExactlyWithin` | workflows/deployment_actor.go:64-69 | In every reachable state a command is refused if and only if its key is among the last operations of the full log, as many as the window is long |
| `ActorMemory.EvictedKeyRunsAgain` | workflows/deployment_actor.go:277-290 | In every state right after a restart a command is refused if and only if its key is among the last fifty operations of the full log |
| `ActorMemory.KeyRunsTwice` | workflows/deployment_actor.go:63-69 | A concrete run with the default limits, whatever the outside world answers, in which one key is executed twice |
| `ActorGuarantees.BoundedMemory` | workflows/deployment_actor.go:41-60 | In every reachable state the processed keys are the key-to-ID map of the remembered operations, these are a suffix of the full log (all of it up to 50), both histories are at most 50 + ContinueAfter long, and the commands taken are the commands received, in order, with none left waiting |
| `ActorGuarantees.KeyMapMeans` | workflows/deployment_actor.go:286-288 | A key maps to an ID if and only if a remembered operation has that key and that ID |
| `ActorGuarantees.RuntimeInStep` | workflows/deployment_actor.go:148-173 | In every reachable state the version last applied to the runtime is the current one (then with its spec) or the one after it |
| `ActorGuarantees.VersionsContiguous` | workflows/deployment_actor.go:167-169 | Recorded version IDs are consecutive and end at the current version, which differs from the last healthy one and the last record in observed health at most |
| `ActorGuarantees.RollbackFinds` | workflows/deployment_actor.go:205-220 | The search finds a target if and only if it is among the last kept versions, and then that version; otherwise rollback uses the current spec |
| `ActorGuarantees.NewVersionsSpec` | workflows/deployment_actor.go:205-257 | A command that records a version appends exactly one, numbered current+1, with the requested spec: the one found by rollback, or for a scale-to the current one with only the parallelism changed |
| `ActorGuarantees.AdmissionOverRuns` | activities/validate.go:15-39 | In every reachable state every version ever recorded, by deploy, scale or rollback, is digest-pinned with 0 < parallelism <= max, never lowers max parallelism of its predecessor without an approved fresh start, and if the change needed approval came from an approved command or a rollback |
| `ActorGuarantees.RecordedVersionsHealthy` | workflows/rollout.go:109-133 | Every remembered version is marked healthy and passes the gate of the policy the actor started with, which is the policy in every generation |
| `ActorGuarantees.RecordsNeverChange` | workflows/deployment_actor.go:167-169 | While a version ID is remembered, across commands (resume included) and restarts, the record under it stays the same |
| `ActorGuarantees.ResumeOverwritesSharedHealth` | workflows/deployment_actor.go:227-243 | A resume that succeeds writes the observed health into the current version, through the shared object into the last healthy one as well, and never into the history |
| `ActorCommands.ScaleRejectedExactly` | workflows/deployment_actor.go:245-257 | A manual scale of an actor with a version is rejected if and only if the autoscaler is enabled and not frozen; then nothing but the audit is asked for |
| `ActorCommands.NoScaleWhileActive` | workflows/deployment_actor.go:245-257 | Over every run no version is recorded by a manual scale while the autoscaler is enabled and not frozen |
| `ActorCommands.FrozenExactly` | workflows/deployment_actor.go:105-106 | In every reachable state the autoscaler is frozen if and only if a freeze command was executed |
| `ActorCommands.EnabledExactly` | workflows/deployment_actor.go:103-170 | In every reachable state the autoscaler is enabled if and only if the last command that set it, an enable or a deployment, switched it on |
| `ActorCommands.DefaultsMean` | workflows/deployment_actor.go:259-275 | In every reachable state, of every generation, identity, policy and restart limit are those it was started with, with the defaults for an empty policy and a limit that is not positive |
| `ActorCommands.DeployMeans` | workflows/deployment_actor.go:140-173 | A deployment runs one rollout, under a child ID made of the identity and the operation, and takes over its version, savepoint, lease, note and autoscaler setting, or changes none of them |
| `ActorCommands.DeployRefusedExactly` | workflows/deployment_actor.go:140-143 | A deployment is refused for lack of a spec if and only if it has none |
| `ActorCommands.RollbackRefusedExactly` | workflows/deployment_actor.go:205-220 | A rollback is refused if and only if no remembered version has the ID and none is the last healthy one |
| `ActorCommands.SuspendMeans` | workflows/deployment_actor.go:92-96 | A suspend asks for the state SUSPENDED, and the actor is suspended if and only if that succeeds |
| `ActorCommands.ResumeMeans` | workflows/deployment_actor.go:227-243 | A resume asks for the state RUNNING, then observes the current version, and succeeds if and only if both do |
| `ActorCommands.SavepointMeans` | workflows/deployment_actor.go:175-193 | A savepoint is recorded if and only if there is a version and the child triggers and observes one; then it is the last savepoint |
| `ActorCommands.QuietCommands` | workflows/deployment_actor.go:103-107 | Enable, freeze and continue-as-new succeed and ask for nothing but the audit |
| `ActorCommands.UnsupportedRefused` | workflows/deployment_actor.go:108-109 | A command of an unknown kind is refused |
| `ActorCommands.RecordMeans` | workflows/deployment_actor.go:74-128 | The record says who asked for what, when, and how it ended; the status of the actor follows |
| `ActorCommands.KeyMeans` | workflows/deployment_actor.go:64-66 | The key is the one given, or the operation ID if none was |
| `ActorHealth.ResumeHealthExact` | workflows/deployment_actor.go:227-243 | After a resume that succeeds, a last healthy version that passed the gate still passes if and only if it is an object of its own or the resumed job passes |
| `ActorHealth.SharedExactly` | workflows/deployment_actor.go:51-58 | In every reachable state the current and the last healthy version are one object if and only if a version was deployed and no restart followed |
| `ActorHealth.LastHealthyPassesExactly` | workflows/deployment_actor.go:227-243 | Over every run, what decides after each command whether the last healthy version passes the gate: a deployment, a successful resume of a shared object, or else what was the case before |
| `ActorHealth.LastHealthyFailsExactly` | workflows/deployment_actor.go:227-243 | In every reachable state the last healthy version fails the gate if and only if the last command that wrote it, by deploying or by resuming a shared object, was a resume whose observed health fails |
| `ActorHealth.UnapprovedRollbackRecorded` | workflows/deployment_actor.go:221-224 | A concrete run in which a rollback that nobody approved records a change that needs approval |
| `ActorHealth.LastHealthyCanFail` | workflows/deployment_actor.go:227-243 | A concrete run of a deployment and a resume after which the last healthy version fails the gate |
| `ActorHealth.OthersKeepHealth` | workflows/deployment_actor.go:86-110 | No other command changes the last healthy version |
| `ActorTheorems.ExecuteEffect` | workflows/deployment_actor.go:63-138 | One executed command leaves everything outside its frame alone, and either records no version or one that is admitted, healthy and next in line |
| `ActorTheorems.DrainInv` | workflows/deployment_actor.go:46-59 | Working off the queue, restarts included, keeps all invariants |
| `ActorTheorems.ReceiveInv` | workflows/deployment_actor.go:41-60 | So does receiving one command |
| `ActorTheorems.RunReached` | workflows/deployment_actor.go:41-60 | Hence every state of every run satisfies all invariants, and its histories only grow |
| `ActorTheorems.KeysRestart` | workflows/deployment_actor.go:277-290 | Compaction keeps the keys in agreement with the operations it keeps |
| `ActorTheorems.InitialReached` | workflows/deployment_actor.go:259-275 | A newly started, normalized actor satisfies all invariants |
| `DeploymentActor.DeploymentActor.Deploy` | workflows/deployment_actor.go:140-173 | Updates the fields through the pointers as the specification says; afterwards both version pointers are one new object |
| `DeploymentActor.DeploymentActor.Advance` | workflows/deployment_actor.go:158-170 | Savepoint, version, history and autoscaler setting become those of the result; both pointers get one new object |
| `DeploymentActor.DeploymentActor.TakeSavepoint` | workflows/deployment_actor.go:175-193 | Sets the last savepoint and the record, or leaves the state alone on an error |
| `DeploymentActor.DeploymentActor.SetJobState` | workflows/deployment_actor.go:195-203 | Fails without a version; otherwise makes exactly one request |
| `DeploymentActor.DeploymentActor.ResumeJob` | workflows/deployment_actor.go:227-243 | Writes through the current pointer; the state as a value changes as specified whether or not the pointers share an object |
| `DeploymentActor.DeploymentActor.FindVersion` | workflows/deployment_actor.go:206-213 | The loop returns the first recorded version with the ID |
| `DeploymentActor.DeploymentActor.Rollback` | workflows/deployment_actor.go:205-225 | Deploys the found spec, or the last healthy one, as approved; fails if there is neither |
| `DeploymentActor.DeploymentActor.Scale` | workflows/deployment_actor.go:245-257 | Rejected without a version or under an active autoscaler; otherwise deploys the current spec with the new parallelism |
| `DeploymentActor.DeploymentActor.ProcessCommand` | workflows/deployment_actor.go:63-138 | A remembered key changes nothing; otherwise state, records, runtime and history change by exactly one specified execution |
| `DeploymentActor.DeploymentActor.Compact` | workflows/deployment_actor.go:277-290 | Keeps the last fifty operations and versions and rebuilds the keys in a loop |
| `DeploymentActor.DeploymentActor.Normalize` | workflows/deployment_actor.go:259-275 | Fills in the default policy and the default restart limit, and nothing else |
| `DeploymentActor.DeploymentActor.ContinueAsNew` | workflows/deployment_actor.go:51-58 | The next generation is a new object with the compacted state and separate version objects |
| `DeploymentActor.DeploymentActor.TakeOne` | workflows/deployment_actor.go:46-50 | One turn of the loop is one step of the specified machine |
| `DeploymentActor.DeploymentActor.Receive` | workflows/deployment_actor.go:40-61 | Receiving a signal and working off the queue is one transition of the specified machine, whose runs the guarantees are about |
| `Listing.PaginationRefinesFiltering` | control/service.go:164-243 | Following the tokens from the empty one ends, and the pages put together are exactly the matching executions in order, no repeats and no gaps, each page within the limit, however the backend cuts its pages |
| `Listing.PageIsNext` | control/service.go:164-243 | A page for a good token is never an error, contains the next matches in line; if it names a successor it is full and the successor token is good and resumes strictly later, where this page stopped |
| `Listing.FollowCollects` | control/service.go:164-243 | The same from any good token: the remaining pages are the remaining matches |
| `Listing.RefusedExactly` | control/service.go:173-198 | A page is answered if and only if its token decodes and points inside a page of the backend |
| `Listing.PagesListExactly` | control/service.go:164-264 | A summary is on the followed pages if and only if it is that of a running actor of a deployment whose environment and namespace the filters let through |
| `Listing.ListedExactly` | control/service.go:245-264 | The actor of a deployment is listed if and only if the environment filter is empty or its environment, and the namespace filter is empty or its namespace |
| `Listing.NothingElseListed` | control/service.go:245-264 | Every execution listed is the actor of such a deployment, and is summarized as that |
| `Listing.LimitsMean` | control/service.go:164-180 | The limits: 100 by default, 500 at most, otherwise as asked; the backend is asked for twice that, from 100 to 1000 |
| `Listing.RefusedAs` | control/service.go:173-198 | A token past the end is the backend's error; one that does not decode or points outside its page is invalid |
| `Listing.CursorResumes` | control/service.go:220-232 | The cursor made when a page fills up points at the next execution and is accepted; it is the empty token only at the end of the list |
| `Listing.MatchingFrom` | control/service.go:200-234 | What one scan collects, followed by the matches after it, are all the matches |
| `Listing.WalkPage` | control/service.go:200-234 | The inner loop continues the scan over one backend page and stops exactly where the client page fills up |
| `Listing.ListDeployments` | control/service.go:164-243 | The nested loops compute the page that the flat specification describes, errors included |
| `WorkflowIds.ParseThenPrint` | control/service.go:245-259 | Every workflow ID that parses prints back to itself |
| `WorkflowIds.PrintThenParse` | domain/model.go:15-17 | A printed identity parses back to itself if and only if its three parts are non-empty and the first two contain no slash |
| `WorkflowIds.ParsesExactly` | control/service.go:245-259 | A text is a workflow ID if and only if it is flink-deployment and three non-empty parts, slashes between, the first two free of slashes |
| `WorkflowIds.WorkflowIDInjective` | domain/model.go:15-17 | On that domain, equal workflow IDs mean equal environment, namespace and name |
| `ProgramArgs.ProgramArgs` | backends/kubernetes/flink.go:190-204 | The two loops render the sorted, unreserved keys, from any iteration order |
| `ProgramArgs.ParseArgs` | examples/flink-job/src/main/java/com/example/cohestra/WikiEditCount.java:79-89 | The loop builds the map in which later pairs win and an odd last argument is ignored |
| `ProgramArgs.ArgumentsRoundTrip` | backends/kubernetes/flink.go:190-204 | Parsing the rendered arguments gives the map without the three reserved keys, for every map |
| `ProgramArgs.ArgumentsCanonical` | backends/kubernetes/flink.go:190-204 | Two maps, each in any iteration order, render the same list if and only if they agree outside the reserved keys |
| `ProgramArgs.ArgumentsForm` | backends/kubernetes/flink.go:190-204 | The arguments are the keys other than the three reserved names, in increasing order, each as two dashes and the key followed by its value |
| `ProgramArgs.ParsedRender` | examples/flink-job/src/main/java/com/example/cohestra/WikiEditCount.java:79-89 | Reading rendered keys gives exactly those keys with their values |
| `ProgramArgs.ParsedExactly` | examples/flink-job/src/main/java/com/example/cohestra/WikiEditCount.java:79-89 | A key is in the parsed map if and only if a pair names it, with or without two dashes |
| `ProgramArgs.ParsedLast` | examples/flink-job/src/main/java/com/example/cohestra/WikiEditCount.java:79-89 | Its value is that of the last such pair |
| `ProgramArgs.HashMap` | domain/change.go:121-132 | The two loops build the sorted list of pairs |
| `ProgramArgs.HashInputDeterminesMap` | domain/change.go:121-132 | Two maps, each in any iteration order, give the same hashed list if and only if they are equal |
| `SortedKeys.SortForgetsOrder` | domain/change.go:126 | Sorting two enumerations of the same keys gives the same list |
| `SortedKeys.LessMeans` | domain/change.go:126 | The order is that of the first difference; a prefix comes first |
| `JsonText.EscapeIsPerUnit` | sdk/java/src/main/java/io/cohestra/sdk/Json.java:41-44 | The five successive replaces are one pass that maps each character on its own |
| `JsonText.DecimalRoundTrip` | sdk/java/src/main/java/io/cohestra/sdk/Json.java:171 | Long.parseLong reads back every printed long, the two extremes included |
| `JsonText.LongsExactly` | sdk/java/src/main/java/io/cohestra/sdk/Json.java:171 | A printed integer reads back if and only if it is between the two extreme longs |
| `JsonText.DecimalForm` | sdk/java/src/main/java/io/cohestra/sdk/Json.java:21-27 | Decimal digits, most significant first, after a minus sign if negative |
| `JsonText.UnitsMean` | sdk/java/src/main/java/io/cohestra/sdk/Json.java:86-190 | The characters of the grammar |
| `JsonRoundTrip.EscapedStringRoundTrip` | sdk/java/src/main/java/io/cohestra/sdk/Json.java:133-157 | For all s and t, parseString on quote + escape(s) + quote + t returns s and stops exactly at t |
| `JsonRoundTrip.RawKeyRoundTripExact` | sdk/java/src/main/java/io/cohestra/sdk/Json.java:17-31 | A key, which is written unescaped, reads back as itself and ends at its quote if and only if it contains no quote and no backslash |
| `JsonRoundTrip.QuoteInKeyLost` | sdk/java/src/main/java/io/cohestra/sdk/Json.java:17-31 | A key that is a quote does not read back as itself |
| `JsonGrammar.TreeReads` | sdk/java/src/main/java/io/cohestra/sdk/Json.java:86-190 | Every JSON text of objects, arrays, strings with any escapes, numbers, booleans and null, spread over any white space, at any position in any text: the reader gives its value and stops exactly behind it, or refuses it as a number format if some number does not fit |
| `JsonGrammar.MembersRead` | sdk/java/src/main/java/io/cohestra/sdk/Json.java:100-117 | The member loop, from any member on, adds exactly the remaining members and stops behind the closing brace, or refuses a number |
| `JsonGrammar.ItemsRead` | sdk/java/src/main/java/io/cohestra/sdk/Json.java:119-131 | The item loop, from any item on, adds exactly the remaining items in order and stops behind the closing bracket, or refuses a number |
| `JsonGrammar.QuotedReads` | sdk/java/src/main/java/io/cohestra/sdk/Json.java:133-157 | A quoted string in any spelling is read piece by piece, up to its closing quote |
| `JsonGrammar.NumberReads` | sdk/java/src/main/java/io/cohestra/sdk/Json.java:159-174 | A number text followed by no further number character is read in full, or refused |
| `JsonStandard.StandardTextReads` | sdk/java/src/main/java/io/cohestra/sdk/Json.java:71-76 | parseObject on every RFC 8259 object text, whatever follows it: its members as this reader takes them, or a NumberFormatException if and only if some integer is no long |
| `JsonStandard.StandardTextMeans` | sdk/java/src/main/java/io/cohestra/sdk/Json.java:71-76 | Where no string has a backslash b or f, that is the meaning of the standard if and only if every integer is a long |
| `JsonStandard.StandardStringExact` | sdk/java/src/main/java/io/cohestra/sdk/Json.java:133-157 | parseString gives a standard string what it stands for if and only if it has no backslash b and no backslash f |
| `JsonStandard.BackspaceMisread` | sdk/java/src/main/java/io/cohestra/sdk/Json.java:141-151 | The standard spelling of a backspace is read as the letter b |
| `JsonStandard.NumberMeans` | sdk/java/src/main/java/io/cohestra/sdk/Json.java:159-174 | Every number spelled as section 6 of RFC 8259 says: with a fraction or an exponent it is a double, otherwise the integer it spells if that is a long, otherwise refused |
| `JsonStandard.EscapeStandardExact` | sdk/java/src/main/java/io/cohestra/sdk/Json.java:41-44 | What escape puts between quotes is a standard string if and only if the text has no control character but tab, newline and carriage return |
| `JsonStandard.DocStandardExact` | sdk/java/src/main/java/io/cohestra/sdk/Json.java:17-62 | The text of a printable document is standard if and only if its strings and escaped keys have no control character but tab, newline and carriage return, its raw keys have none at all, and its doubles are spelled as section 6 says |
| `JsonStandard.WordsRefused` | sdk/java/src/main/java/io/cohestra/sdk/Json.java:159-174 | NaN and the infinities, as Double.toString spells them, are refused as a number format |
| `JsonLoose.LooseTextReads` | sdk/java/src/main/java/io/cohestra/sdk/Json.java:100-117 | parseObject on objects with any character for a colon, with or without commas between members, ended by a brace, a comma, both or neither: the members if exactly one of the two comes last, otherwise an index exception |
| `JsonLoose.LooseObjectReads` | sdk/java/src/main/java/io/cohestra/sdk/Json.java:100-117 | What the member loop makes of such texts and where it stops |
| `JsonLoose.LooseArrayReads` | sdk/java/src/main/java/io/cohestra/sdk/Json.java:119-131 | The same of arrays, where a bracket behind a comma is refused as a number; two numbers need something between them |
| `JsonLoose.UnclosedStringReads` | sdk/java/src/main/java/io/cohestra/sdk/Json.java:133-157 | A string that the text ends in is read as if it were closed |
| `JsonLoose.BrokenEscapeRefused` | sdk/java/src/main/java/io/cohestra/sdk/Json.java:133-157 | A text that ends within an escape is an index exception; four characters that are no number are a number exception |
| `JsonLoose.AnyWordWithN` | sdk/java/src/main/java/io/cohestra/sdk/Json.java:182-185 | Any word that begins with n is taken for null |
| `JsonParser.RefusedTexts` | sdk/java/src/main/java/io/cohestra/sdk/Json.java:71-117 | The exceptions of the shortest malformed texts, and the texts of the empty map |
| `JsonParser.HexDigitMeans` | sdk/java/src/main/java/io/cohestra/sdk/Json.java:147 | The sixteen digits in either case and no other character |
| `JsonParser.HexMeans` | sdk/java/src/main/java/io/cohestra/sdk/Json.java:147 | Four digits are the character with that number, most significant digit first |
| `JsonParser.SignedHexMeans` | sdk/java/src/main/java/io/cohestra/sdk/Json.java:147 | A sign takes the place of the first digit, and a negative number counts down from the top |
| `JsonParser.WhiteSpaceMeans` | sdk/java/src/main/java/io/cohestra/sdk/Json.java:187-189 | What is white space and what is not |
| `JsonStandard.ControlCharacterNotEscaped` | sdk/java/src/main/java/io/cohestra/sdk/Json.java:41-44 | The text of the single control character 1 is written as it is, which no standard string spells |
| `JsonRoundTrip.DocSpells` | sdk/java/src/main/java/io/cohestra/sdk/Json.java:17-62 | Every document the writer prints is the text of a tree of the JSON grammar with the same meaning |
| `JsonRoundTrip.DocReads` | sdk/java/src/main/java/io/cohestra/sdk/Json.java:86-117 | Every printed document, at any position in any text, reads back as what it means, and the reader stops exactly behind it |
| `JsonRoundTrip.PrintedObjectReadsBack` | sdk/java/src/main/java/io/cohestra/sdk/Json.java:71-76 | parseObject gives back every printed object |
| `JsonRoundTrip.ObjectRoundTrip` | sdk/java/src/main/java/io/cohestra/sdk/Json.java:46-62 | For keys free of quote and backslash and string, boolean, int, long, double or null values, parseObject(object(kvPairs)) is the map of the non-null pairs |
| `JsonRoundTrip.PairsMapKeys` | sdk/java/src/main/java/io/cohestra/sdk/Json.java:46-62 | A key is in that map if and only if a non-null pair names it |
| `JsonRoundTrip.PairsMapLast` | sdk/java/src/main/java/io/cohestra/sdk/Json.java:46-62 | Its value is that of the last non-null pair that names it, the only one if keys are distinct |
| `JsonRoundTrip.ReadObjectMeans` | sdk/java/src/main/java/io/cohestra/sdk/Json.java:49-57 | What each kind of value passed to object reads back as |
| `JsonRoundTrip.NumbersExactly` | sdk/java/src/main/java/io/cohestra/sdk/Json.java:159-174 | A printed integer reads back as an int where it is one, else as a long where it is one, and is refused otherwise |
| `SpecRoundTrip.SpecReadsBack` | sdk/java/src/main/java/io/cohestra/sdk/DeploymentSpec.java:20-36 | parseObject(spec.toJson()) is the map of all properties, nested records and string maps, for every specification whose CPU prints as a number |
| `SpecRoundTrip.SpecMapHolds` | sdk/java/src/main/java/io/cohestra/sdk/DeploymentSpec.java:20-36 | In that map no name hides another: the lookup of each property finds what the specification says of it, and nothing for a string map that is null or empty |
| `SpecRoundTrip.SpecOnTheWire` | sdk/java/src/main/java/io/cohestra/sdk/DeploymentSpec.java:20-36 | In the map that parseObject gives for the printed specification, imageDigest, flinkVersion, parallelism, maxParallelism, resources, stateCompatibility, autoscalerEnabled, and jobArgs and flinkConfig where not empty, each have the specification's value under that very name |
| `SpecRoundTrip.RecordsOnTheWire` | sdk/java/src/main/java/io/cohestra/sdk/ResourceShape.java:14-18 | So do taskManagerCpu, taskManagerMemoryMiB, taskManagerCount and slotsPerManager, and the four flags of the state compatibility |
| `SpecRoundTrip.StringsHold` | sdk/java/src/main/java/io/cohestra/sdk/Json.java:33-39 | In the maps inside, each key has the value of its last entry, the empty text for null |
| `JsonWriter.TrimmedEntries` | sdk/java/src/main/java/io/cohestra/sdk/Json.java:49-60 | Appending every member with a comma and cutting the last comma gives the text of the JSON object grammar |
| `JsonWriter.EscapeText` | sdk/java/src/main/java/io/cohestra/sdk/Json.java:41-44 | Maps each character on its own; null is the empty text |
| `JsonWriter.StringField` | sdk/java/src/main/java/io/cohestra/sdk/Json.java:17-19 | Appends exactly one member with a trailing comma |
| `JsonWriter.NumberField` | sdk/java/src/main/java/io/cohestra/sdk/Json.java:21-27 | The same for int and long |
| `JsonWriter.BooleanField` | sdk/java/src/main/java/io/cohestra/sdk/Json.java:29-31 | The same for boolean |
| `JsonWriter.MapField` | sdk/java/src/main/java/io/cohestra/sdk/Json.java:33-39 | Appends the printed map as one member, with its keys escaped; nothing for null or empty |
| `JsonWriter.WriteObject` | sdk/java/src/main/java/io/cohestra/sdk/Json.java:46-62 | Returns the printed object of the non-null pairs, or the exception that an odd number of arguments or a key that is no string raises |
| `JsonWriter.ObjectThrowsExactly` | sdk/java/src/main/java/io/cohestra/sdk/Json.java:46-62 | object throws a class cast exception if and only if some key is neither null nor a string, and else an index exception if and only if the number of arguments is odd |
| `JsonWriter.KeyNameMeans` | sdk/java/src/main/java/io/cohestra/sdk/Json.java:46-62 | A null key is written as the word null |
| `JsonWriter.ObjectForm` | sdk/java/src/main/java/io/cohestra/sdk/Json.java:46-62 | The text of a small object, character by character |
| `JsonWriter.ResourcesToJson` | sdk/java/src/main/java/io/cohestra/sdk/ResourceShape.java:14-18 | The template filled in is the printed record |
| `JsonWriter.CompatibilityToJson` | sdk/java/src/main/java/io/cohestra/sdk/StateCompatibility.java:15-19 | The template filled in is the printed record |
| `JsonWriter.SpecToJson` | sdk/java/src/main/java/io/cohestra/sdk/DeploymentSpec.java:20-36 | The appended members with the last comma cut are the printed specification |
| `JsonParser.ParseString` | sdk/java/src/main/java/io/cohestra/sdk/Json.java:133-157 | The loop delivers what the recursive description of strings says, exceptions and final position included |
| `JsonParser.ParseNumber` | sdk/java/src/main/java/io/cohestra/sdk/Json.java:159-174 | The loop delivers the longest number text as int, long or double, or the exception |
| `JsonParser.ParseBool` | sdk/java/src/main/java/io/cohestra/sdk/Json.java:176-180 | Delivers the literal at the position, or the exception |
| `JsonParser.SkipBlanks` | sdk/java/src/main/java/io/cohestra/sdk/Json.java:187-189 | Moves to the first character that is no white space |
| `JsonParser.Parse` | sdk/java/src/main/java/io/cohestra/sdk/Json.java:86-98 | The dispatch on the first character delivers the value and position of the recursive description |
| `JsonParser.ParseObj` | sdk/java/src/main/java/io/cohestra/sdk/Json.java:100-117 | So does the member loop, duplicate keys, early ends and missing commas included |
| `JsonParser.ParseArr` | sdk/java/src/main/java/io/cohestra/sdk/Json.java:119-131 | So does the item loop |
| `JsonParser.ParseObject` | sdk/java/src/main/java/io/cohestra/sdk/Json.java:71-76 | Blank text gives the empty map; otherwise the object at the start of the trimmed text, or the exception |

## Left out

- LeaseTheorems.BudgetSafety: asks for requests from zero up to the largest 64-bit integer minus the budget, and that acquiring a held lease asks for no more than it holds, because without such a guard the claim is false of the code; BudgetOverRuns has the exact condition.
- JsonStandard.StandardTextMeans: asks that no string has a backslash b or f, which the reader misreads; StandardTextReads says for all texts what it reads instead.
- SimulatedLeases.SerialRunsAgree: asks for fresh IDs, non-blank pool names and a clock that never goes back, because the two stores differ without any of the three (BlankNamesPart, ReusedIDsPart, ClocksGoingBackPart).
- SpecRoundTrip.SpecReadsBack: takes the CPU as a number token; NaN and infinities print as words that the reader refuses (WordsRefused).
- Temporal: replay, timers, retries, timeouts and its signal buffer. Claims start at commands the actor has received; signals still buffered at a restart are outside this code.
- Activity attempts that take effect after their failure was reported. A failed apply may have taken effect before that.
- The Kubernetes client beyond versioned Get, Create, List and Update of ConfigMaps; List is one consistent snapshot, stored leases always decode, and ConfigMaps are never deleted. The back-off between retries is not modelled; their number is.
- The simulated runtime's generation counter and delays; the runtime is the version last applied.
- Base64 and JSON of the listing cursor: a cursor is a datatype, and any other string is one that does not decode. The backend's token names a position in a fixed list.
- SHA-256: a digest is represented by what is hashed.
- A difference between nil and empty maps in Go: both are omitted from the JSON of a child's input, so job arguments and configuration are compared as they arrive there.
- Overflow of version IDs, of generation numbers and of the event count; CPU as a floating-point number (a real in Go's lease, a token in the SDK).
- Fields that no claim needs: requested-at, schema version, active operation, rolled-back, owner, service account, dashboard address, audit text, and the reason texts of errors, which are datatypes.
- The two cases of an exception for a null resource shape or a null state compatibility in the SDK's toJson, and the default locale's digits in its templates.
- Hexadecimal digits outside ASCII in a JSON \u escape; parseArray's wrapper; numeric values of doubles.
- Cluster freeze, which is a query and then a signal; view, the queries, HTTP, OAuth, configuration, UI, Helm, the SDK's HTTP client and autoscaler loops, sharding, manifest rendering.
