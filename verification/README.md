# GuardWall in Dafny

GuardWall turns ban decisions into a desired firewall state, drives a privileged backend
towards it, and survives crashes and uncertain commits. This project models the parts that
carry its guarantees and proves them for all inputs, all interleavings and all runs.

**Reconciliation.** `ReconcileStore` is the durable retry ledger with its Probe requirements,
`ReconcileTrace` the history of commits, Probes and Apply calls and what a history must
satisfy, `ReconcileMemory` the in-memory ledger and its hydration, `ReconcileInvariants` what
every step keeps between the three, and `Controller` the controller itself. Backend answers,
store failures, unknown commits, clock ticks, concurrent transactions, newly published
snapshots and crashes are arbitrary choices, so each contract holds for all of them.
`Dispatcher` is the keyed wakeup queue in front of it.

**Processing.** `Window` and `Ledger` are the detection ledger with its reservations,
`Pipeline` the rule evaluation on top of it, and `Protocol` the commit protocol of any number
of Process calls on coordinators that share one ledger.

**Sources.** `FileRanges`, `Coverage` and `Checkpoint` take completions that arrive out of
order to contiguous checkpoints and covered file prefixes. `Queue` is the bounded, sealable
delivery queue.

**Decisions to desired state.** `Decisions`, `Projection`, `Enforcement` and `DesiredState`
go from the decision lifecycle to the committed snapshots that the controller accepts.
`Node` joins them: what is published bans exactly what the active decisions ask for.
`Addresses` and `PolicyResolution` give prefixes (RFC 4632 section 3.1, RFC 4291 section 2.3)
and policy coverage their set meaning.

Times are positive microseconds and only move forward. Identities and digests are opaque
values that are equal exactly when what they identify is. Integers are unbounded; where the
code tests a width, the model tests the same bound.

Three points where the code decides:

- Backoff holds after every attempt whose ending was stored and after every restart
  (`ReconcileTrace.EndedWaits`). It does not hold for an entry that a failed final transition
  left Applying in memory: the next attempt is admitted without waiting (after its Probe).
  `ReconcileInvariants.AdmissionWaitsExactlyWhen` gives the exact condition, and histories
  mark such attempts as resumed (`ReconcileTrace.ResumedDoesNotWait`).
- A policy replacement that finds disabled rows rewrites an equal policy under a new revision,
  which the controller refuses. `DesiredState.RewriteAcceptedExactlyWhen` gives the exact
  condition; the replacement itself leaves no disabled rows.
- The plan provider publishes only the latest committed state, so commits may be skipped. A
  skipped-to state is accepted if and only if everything that moved also differs
  (`DesiredState.LaterAcceptedExactlyWhen`): a change and its reversal seen as one step are
  refused.

## Model

| member | source | states |
|---|---|---|
| `PolicyResolution.HalvesPartition` | internal/decision/policy_resolution.go:97-108 | the two halves of a prefix that is not a single address are valid and canonical, share no address and together hold exactly its addresses |
| `PolicyResolution.SplitPolicyPrefix` | internal/decision/policy_resolution.go:97-108 | setting one bit in the big-endian byte array yields exactly the lower and upper half |
| `PolicyResolution.ByteWriteHalves` | internal/decision/policy_resolution.go:97-108 | reading the written bytes back as a number gives the address plus half the span |
| `PolicyResolution.OverlapIsTouch` | internal/decision/policy_resolution.go:75-82 | the overlap scan answers yes exactly when some listed prefix shares an address with the target |
| `PolicyResolution.UnionCoversIsCovered` | internal/decision/policy_resolution.go:84-95 | the recursive split agrees with set union: it is true exactly when every address of the target lies in some listed prefix |
| `PolicyResolution.VisitsBounded` | internal/decision/policy_resolution.go:84-95 | the recursion visits at most 1 + 2·n·(BitLen − bits) prefixes for n listed ones |
| `PolicyResolution.CanonicalPolicyRelationPrefixes` | internal/decision/policy_resolution.go:56-73 | invalid or non-canonical input is refused; otherwise the result is strictly sorted and has exactly the elements of the input |
| `PolicyResolution.SortPrefixesKeeps` | internal/decision/policy_resolution.go:67-67 | sorting keeps the elements and orders them |
| `PolicyResolution.SortedListingUnique` | internal/decision/policy_resolution.go:56-73 | two strictly sorted lists with the same elements are equal, so the relation has one listing |
| `PolicyResolution.ResolvePolicy` | internal/decision/policy_resolution.go:30-54 | the answer is None, Partial or Full exactly as no, some or every address of the target is listed; invalid input is refused |
| `PolicyResolution.ResolutionIgnoresOrder` | internal/decision/policy_resolution.go:30-54 | inputs with the same elements, in any order and with any repetition, resolve to the same coverage and digest |
| `ReconcileStore.CommitEffect` | internal/store/reconcile_state.go:162-222 | after a commit the slot's requirements are exactly the one written with it, its row never moves back and no other slot changes |
| `ReconcileStore.CommitKeepsDurable` | internal/store/reconcile_state.go:162-222 | every commit the controller may attempt keeps the ledger and the Probe requirements consistent |
| `ReconcileStore.RetryKeepsDurable` | internal/store/reconcile_state.go:226-272 | a retry epoch keeps the store consistent and lies strictly above the row it replaces |
| `ReconcileStore.ResetReachKeepsDurable` | internal/store/desired_state.go:171-223 | resets of target and policy rows by other transactions keep the store consistent |
| `ReconcileTrace.ProbeBetween` | internal/reconcile/controller.go:179-299 | between an Apply and any later Apply there is a successful Probe, or the first was rejected and a later commit removed its requirement; a rejection that a crash or failed write lost counts for nothing |
| `ReconcileTrace.WrittenAhead` | internal/reconcile/controller.go:681-712 | each Apply is preceded by a commit of an Applying row and a Probe requirement for exactly its key and attempt, with no Apply in between |
| `ReconcileTrace.AtMostSixApplies` | internal/reconcile/controller.go:27-35 | over a whole history one retry key gets at most six Apply calls |
| `ReconcileTrace.CommitKeepsBudget` | internal/store/reconcile_state.go:558-592 | a ledger write never forgets an Apply: the attempts recorded stay at least the Apply calls of the history |
| `ReconcileTrace.BackoffBetween` | internal/reconcile/controller.go:689-700 | two consecutive Apply calls of one key that nothing retired in between are at least the table's delay apart, unless the second began from an entry left Applying |
| `ReconcileTrace.EndedWaits` | internal/reconcile/controller.go:897-935 | the same whatever the second one began from, if between the two an ending of the attempt was stored or the process restarted |
| `ReconcileTrace.HydratedCarriesBackoff` | internal/reconcile/persistence.go:97-109 | the deadline rebuilt after a crash carries the backoff of the interrupted attempt |
| `ReconcileTrace.ResumedDoesNotWait` | internal/reconcile/controller.go:689-695 | a history that the store and the barrier allow, with two Apply calls of one key at the same time and neither a stored ending nor a restart between them: it keeps the backoff if and only if the second attempt was resumed |
| `ReconcileMemory.HydrateRecovery` | internal/reconcile/persistence.go:85-153 | on a consistent store hydration never fails; memory then holds the ledger with interrupted attempts resolved and exactly the stored requirements pending |
| `ReconcileMemory.HydratedInMemory` | internal/reconcile/persistence.go:85-153 | rebuilt memory is in step with the store in every slot |
| `ReconcileMemory.ResetReachKeepsMemory` | internal/reconcile/persistence.go:85-153 | resets by other transactions leave memory behind, never ahead of the store |
| `ReconcileInvariants.ApplyKeepsSafe` | internal/reconcile/controller.go:262-262 | calling Apply for a begun attempt keeps the barrier, the budget and the backoff of the whole history |
| `ReconcileInvariants.BeginWritable` | internal/reconcile/controller.go:681-712 | the write-ahead transition of an admitted attempt keeps every invariant and clears exactly that attempt for Apply, its wait included where one is owed |
| `ReconcileInvariants.FailureWritable` | internal/reconcile/controller.go:897-935 | ending an attempt as degraded or waiting carries the backoff forward and drops a requirement only when every unresolved Apply was rejected |
| `ReconcileInvariants.ClearWritable` | internal/reconcile/persistence.go:252-272 | settling a requirement after a Probe keeps every invariant, whichever epoch's entry is written with it |
| `ReconcileInvariants.DropWritable` | internal/reconcile/persistence.go:274-286 | dropping a requirement that a newer row has superseded keeps every invariant |
| `ReconcileInvariants.RetryKeepsSafe` | internal/reconcile/controller.go:1265-1284 | a committed retry epoch with its superseded pending entries keeps memory and store in step |
| `ReconcileInvariants.RestartsAgree` | internal/reconcile/persistence.go:97-109 | restarts on one database state rebuild the same deadlines and pending requirements, however many and whenever |
| `ReconcileInvariants.LeftApplyingIsAdmitted` | internal/reconcile/controller.go:689-695 | an entry left Applying is admitted at once: the backoff alone would not hold there |
| `ReconcileInvariants.AdmissionWaitsExactlyWhen` | internal/reconcile/controller.go:689-695 | for every entry that carries its key's backoff, admission waits it out if and only if the entry is not Applying, has no attempts left, or the delay has passed |
| `Controller.Controller.constructor` | internal/reconcile/controller.go:130-153 | a new controller satisfies the invariant with an empty ledger |
| `Controller.Controller.SetDesiredSnapshot` | internal/reconcile/controller.go:157-175 | publishes exactly the valid snapshots that are an accepted step from the current one, and then nothing is confirmed |
| `Controller.Controller.HighestEpoch` | internal/reconcile/persistence.go:155-181 | the active epoch is the highest one known for the current version |
| `Controller.Controller.ReplaceRecovery` | internal/reconcile/persistence.go:335-358 | memory becomes exactly what the store holds and cannot fail |
| `Controller.Controller.ReloadRecoveryIfNeeded` | internal/reconcile/persistence.go:318-333 | success means that memory is in step again |
| `Controller.Controller.ApplyTransition` | internal/reconcile/persistence.go:288-316 | one transaction with commit-unknown readback: success means that the transition stands, that writing it again would change nothing, and that memory is in step elsewhere; an Apply gets resolved by it only if it was rejected and its requirement removed; no row moves back and no other slot's attempts change |
| `Controller.Controller.BeginAttempt` | internal/reconcile/controller.go:681-712 | a started attempt was admitted, is recorded as one more attempt and is cleared for Apply behind its durable requirement; no other slot's attempt count changes |
| `Controller.Controller.WriteAhead` | internal/reconcile/persistence.go:183-206 | an attempt is known in memory only with its Applying row and requirement durable, and is then cleared for Apply |
| `Controller.Controller.FinishFailure` | internal/reconcile/controller.go:897-935 | on success ledger row and entry are both the failed state with its deadline, and a requirement stands exactly if a Probe is required; then, successful or not, an unresolved Apply stays unresolved |
| `Controller.Controller.FinishUnknown` | internal/reconcile/controller.go:937-957 | on success the ambiguous attempt is recorded as failed with its requirement standing |
| `Controller.Controller.FinishStale` | internal/reconcile/controller.go:959-983 | on success no requirement stands in the slot and the entry is stale; nothing becomes pending by it |
| `Controller.Controller.ResolveOne` | internal/reconcile/controller.go:787-813 | a pending key that is not desired is dropped, one that the Probe shows as met is settled, and any other stays |
| `Controller.Controller.FinishRecovered` | internal/reconcile/controller.go:830-848 | on success no requirement stands in the slot and a target is confirmed at its current generation |
| `Controller.Controller.Converge` | internal/reconcile/controller.go:1022-1044 | when persisted, ledger row and entry of the current epoch are converged, no requirement stands in the slot and a target is confirmed at its generation |
| `Controller.Controller.ResolvePending` | internal/reconcile/controller.go:787-813 | after one Probe what stays pending is current and drifted, and exactly the matching requirements were resolved |
| `Controller.Controller.BeginAfterRequiredProbe` | internal/reconcile/controller.go:714-744 | starts only if the Probe did not show the plan's own pending key as met, and answers recovered exactly on such evidence; every other requirement of the slot is settled first |
| `Controller.Controller.BeginAfterStartupProbe` | internal/reconcile/controller.go:746-785 | an attempt starts only if the Probe saw drift; otherwise the slot is recorded as converged and a target is confirmed |
| `Controller.Controller.ConvergeUnbarred` | internal/reconcile/controller.go:763-781 | records a slot seen as desired as converged, in row and entry, and confirms a target |
| `Controller.Controller.CommitConfirmed` | internal/reconcile/controller.go:1046-1083 | finishes only for a plan that is still desired: as converged, recorded and confirmed if the Probe shows the desired state, else as a failed attempt with its deadline |
| `Controller.Controller.CommitConverged` | internal/reconcile/controller.go:1001-1020 | finished means recorded as converged, no longer pending and confirmed at its generation; stale means that the store holds a newer generation |
| `Controller.Controller.ReloadSuperseded` | internal/reconcile/controller.go:1085-1114 | answers yes only if the store holds a newer generation, and memory is then rebuilt from it |
| `Controller.Controller.Execute` | internal/reconcile/controller.go:179-299 | for every backend, store, crash and interleaving: at most one Apply, only for the plan's key; none unless the answer says so; every invariant kept; no other slot's attempt count changes |
| `Controller.Controller.Conclude` | internal/reconcile/controller.go:263-298 | a rejected Apply is recorded as failed without a requirement and retried only if its code allows; a failed or unknown one with its requirement standing |
| `Controller.Controller.ProbeRecovery` | internal/reconcile/controller.go:303-363 | calls no Apply and raises no attempt count; the slots handed back are exactly those still pending |
| `Controller.Controller.ProbeStartupRecovery` | internal/reconcile/controller.go:368-459 | calls no Apply and raises no attempt count; of the requested slots exactly those handed back were seen drifted by the Probe |
| `Controller.Controller.Retry` | internal/reconcile/controller.go:468-553 | success means a new positive epoch whose entry is clean and whose audit is stored; no recorded attempt count falls or rises |
| `Controller.Controller.PersistRetry` | internal/reconcile/controller.go:558-587 | whatever fails, the store holds the whole retry (row and audit) or nothing of it, beyond resets by others; success means a clean entry with its audit stored |
| `Controller.Controller.Reopen` | internal/reconcile/persistence.go:38-83 | after reopening, pending is exactly the set of durable requirements and memory is the hydrated ledger; the history notes the restart |
| `Controller.Controller.Run` | internal/reconcile/controller.go:179-299 | over any run with crashes and reopens: the Probe barrier holds; no key gets more than six Apply calls; no ledger row moves back or loses attempts; after a stored ending or a restart the next Apply of the key waits out the delay, and otherwise only one begun from an entry left Applying may not; every confirmed generation is current and was seen by a Probe of that very intent |
| `Window.VisibleIsStaged` | internal/detection/window.go:304-367 | what a batch would make visible is what was there plus its staged candidates, each new |
| `Window.StagedIsEnough` | internal/detection/window.go:213-237 | confirming the staged candidates makes visible exactly what the batch previewed |
| `Window.PreviewAgrees` | internal/detection/window.go:304-367 | a preview depends only on the memberships of the batch's own keys and windows |
| `Window.KeyOrder` | internal/detection/window.go:437-456 | window keys are strictly and totally ordered |
| `Window.UniqueSortedWindowKeys` | internal/detection/window.go:437-456 | every window of the batch appears once, in order |
| `Ledger.Ledger.TakeGuard` | internal/detection/window.go:369-382 | a guard is taken exactly when nobody holds it |
| `Ledger.Ledger.PrepareLocked` | internal/detection/window.go:304-367 | accepted exactly when mappings agree and no key is claimed by another; previews equal the counts after confirming just the candidates up to each; claims grow by the staged keys |
| `Ledger.Ledger.CheckBatch` | internal/detection/window.go:304-326 | decides acceptance exactly, without changing anything |
| `Ledger.Ledger.PrepareBatch` | internal/detection/window.go:141-187 | for any other callers' steps: on every error no guard and no claim stays held; on success guards are exactly the batch's windows and the previews are exact for what is visible at return; invalid exactly if some candidate is |
| `Ledger.Ledger.TakeGuards` | internal/detection/window.go:161-179 | all guards in order, or none |
| `Ledger.Ledger.Confirm` | internal/detection/window.go:213-237 | memberships become those the batch previewed, counters stay exact, claims and guards are released; a second call does nothing |
| `Ledger.Ledger.Abort` | internal/detection/window.go:240-258 | only the reservation's claims and guards go; memberships and counters are untouched |
| `Ledger.Ledger.DeferResolution` | internal/detection/window.go:263-273 | registers the reservation and never displaces another one |
| `Ledger.Ledger.ResolveDeferred` | internal/detection/window.go:286-302 | settles exactly the registered reservation |
| `Ledger.Ledger.CommittedSnapshot` | internal/detection/window.go:191-209 | the counts equal those recomputed from the memberships, and no reservation covers the window |
| `Ledger.Ledger.Others` | internal/detection/window.go:141-187 | whatever other callers do, a caller keeps its guards, its reservation and its previews |
| `Ledger.AbortUndoesPrepare` | internal/detection/window.go:240-258 | for every accepted batch, dropping what was claimed restores the claims from before |
| `Ledger.Ledger.PrepareThenAbort` | internal/detection/window.go:141-258 | for every batch, preparing and aborting with nobody in between, or being refused, restores claims, guards, reservations, memberships and counters; prepared whenever the batch is acceptable and its guards are free |
| `Ledger.SettledKeepsPromises` | internal/detection/window.go:213-258 | settling one reservation leaves the previews of every other one exact |
| `Pipeline.EvaluateRules` | internal/processor/pipeline.go:238-314 | ends within one pass more than there are matches; on success the reservation stages exactly the prepared matches, each judged on counts without the rejected ones; of all tickets used only the returned one may hold a guard, a reservation or a claim, and none on error |
| `Pipeline.JudgeAll` | internal/processor/pipeline.go:268-307 | a pass judges each match on its own preview, or aborts the reservation |
| `Pipeline.EachMatchOnce` | internal/processor/pipeline.go:238-314 | for matches with distinct keys each is prepared or rejected, never both |
| `Pipeline.HoldsNoClaim` | internal/processor/pipeline.go:238-314 | a caller without reservation holds no claim |
| `Protocol.StepOk` | internal/processor/coordinator.go:105-283 | every step of every Process call keeps the protocol invariant |
| `Protocol.RunOk` | internal/processor/coordinator.go:105-283 | every interleaving of Process calls satisfies the invariant |
| `Protocol.AtMostOneCommit` | internal/processor/coordinator.go:126-253 | at most one transaction commits per delivery |
| `Protocol.SettledAsCommitted` | internal/processor/coordinator.go:126-253 | a settled reservation is confirmed exactly if its transaction committed |
| `Protocol.NothingIsLost` | internal/processor/coordinator.go:126-253 | an unsettled reservation is registered with the ledger or owned by a call at work, so every return path settles or registers |
| `Protocol.NeverDisplaces` | internal/processor/coordinator.go:255-266 | rememberPending finds both registers empty, so it displaces no attempt |
| `Protocol.WaitedForIsLater` | internal/detection/window.go:162-173 | whoever is waited for is further along: followers, gate waiters, guard waiters in guard order |
| `Protocol.NoWaitCycle` | internal/processor/coordinator.go:126-151 | no run has a cycle of calls waiting for each other's flights, gates or guards |
| `Protocol.WaitEnds` | internal/processor/coordinator.go:105-151 | following the waits of any call leads to one that can move or to one that waits only for a deferred reservation |
| `FileRanges.MergeFileRanges` | internal/source/checkpoint.go:182-201 | the indexed loop computes the piece-by-piece merge |
| `FileRanges.MergesExactlyWhen` | internal/source/checkpoint.go:189-193 | merging succeeds exactly when the pieces of every generation are contiguous and in one file |
| `FileRanges.MergeHoldsSame` | internal/source/checkpoint.go:182-201 | the merged ranges hold exactly the bytes of the pieces |
| `FileRanges.MergeOfMerged` | internal/source/checkpoint.go:138-146 | merging ranges that were merged before equals merging their pieces, failures included |
| `FileRanges.AnySplit` | internal/source/checkpoint.go:182-201 | pieces split at any points and merged batch by batch equal one merge of the whole |
| `Coverage.AdvanceFileCoverage` | internal/store/source_coverage.go:62-102 | accepted ranges extend covered prefixes without a gap and within the final EOF, every range is then below its durable end and no other row changes; for one range per generation it succeeds exactly when each is admissible |
| `Coverage.RecordRange` | internal/store/source_coverage.go:68-96 | a range is recorded exactly when its generation is known, live, initialised, contiguous and within its EOF |
| `Coverage.SourceStore.BeginSession` | internal/store/source_session.go:48-80 | compare-and-swap of the active session |
| `Coverage.SourceStore.Initialize` | internal/store/source_coverage.go:22-53 | coverage starts at zero and an existing prefix is kept |
| `Coverage.SourceStore.Seal` | internal/store/source_coverage.go:106-128 | succeeds exactly for the active session, the stated live state and an EOF not below the durable end; the EOF then never moves |
| `Coverage.SourceStore.Advance` | internal/store/source_state.go:181-279 | for one range per generation it succeeds exactly when the session is active, the sequence is new or repeats the stored checkpoint, and every range is admissible; coverage holds for the result |
| `Coverage.SourceStore.SaveCheckpoint` | internal/source/sqlite_state.go:35-60 | also with failed and uncertain commits: coverage holds, durable ends never fall, and yes means that the checkpoint and every range are durable |
| `Checkpoint.CompletionTracker.Mark` | internal/source/checkpoint.go:43-104 | after an accepted completion the tracker stands at the first gap, and a candidate carries the last sequence before it and the merge of the newly released pieces; refused only for invalid, exhausted, conflicting or non-contiguous completions |
| `Checkpoint.CompletionTracker.Collect` | internal/source/checkpoint.go:68-90 | the candidate reaches the first gap or the maximum sequence and carries one merge of all pieces on the way; refused only if they do not merge |
| `Checkpoint.CompletionTracker.Release` | internal/source/checkpoint.go:91-102 | releases up to and including the given sequence, exhausting the space at the maximum |
| `Checkpoint.FirstGapUnique` | internal/source/checkpoint.go:43-104 | the first gap of a set of completions is one number |
| `Checkpoint.ArrivalOrderIsIrrelevant` | internal/source/checkpoint.go:43-104 | trackers that received the same completions in any order are in the same state |
| `Checkpoint.CheckpointManager.CompleteLocked` | internal/source/checkpoint.go:125-151 | the pending candidate carries one merge of every piece released since the last save |
| `Checkpoint.CheckpointManager.Flush` | internal/source/checkpoint.go:154-178 | a successful flush made all ranges that were pending durable, whatever completed meanwhile; saved and pending ranges stay a partition of the released ones |
| `Checkpoint.PendingExtended` | internal/source/checkpoint.go:136-149 | merging a new candidate into the pending one equals merging all their pieces at once |
| `Checkpoint.CheckpointManager.SavedAndPendingAreAll` | internal/source/checkpoint.go:125-201 | saved and pending ranges together equal one merge of all released pieces |
| `Checkpoint.CheckpointManager.PendingIsBeforeGap` | internal/source/checkpoint.go:43-104 | the checkpoint to be saved is the last sequence before the first gap, up to the maximum |
| `Checkpoint.CarriedIsCompleted` | internal/source/checkpoint.go:154-170 | every byte handed to a save belongs to a durable completion |
| `Checkpoint.RunSource` | internal/source/checkpoint.go:125-201 | over any sessions, completions, flushes, failed and uncertain saves, takeovers and saves of another session at any moment: every byte below a durable end belongs to a durable completion and durable ends never fall |
| `Queue.StepOk` | internal/source/queue.go:63-142 | every step keeps the slot balance, the list length, the statsMu holder and the acceptance history |
| `Queue.RunOk` | internal/source/queue.go:63-142 | free slots, held slots, buffered items and slot returns in flight sum to the capacity in every interleaving |
| `Queue.SendNeverBlocks` | internal/source/queue.go:180-186 | the send under statsMu never blocks and never meets a closed channel |
| `Queue.ReturnNeverBlocks` | internal/source/queue.go:104-112 | returning a slot never blocks |
| `Queue.DequeueAlwaysListed` | internal/source/queue.go:188-195 | recordDequeued never finds an empty list |
| `Queue.AcceptanceOrder` | internal/source/queue.go:97-142 | deliveries are received in acceptance order, each once, and none is lost once the sealed queue is drained |
| `Queue.ClosedAcceptsNothing` | internal/source/queue.go:122-142 | nothing is accepted after the items are closed |
| `Dispatcher.HonouredStays` | internal/reconcile/dispatcher.go:371-475 | a wakeup on its way to dispatch, or read since, stays so |
| `Dispatcher.RunOk` | internal/reconcile/dispatcher.go:202-250 | every interleaving of Wake calls and the worker keeps the queue invariant |
| `Dispatcher.ChannelHoldsOnce` | internal/reconcile/dispatcher.go:202-250 | the channel never holds a key twice |
| `Dispatcher.WakeIsHonoured` | internal/reconcile/dispatcher.go:202-250 | if Wake returned nil, the key is still queued or ready, or its Plan was read after the call began |
| `Decisions.MemoryService.RecordAutomatic` | internal/decision/service.go:94-131 | creates exactly when no active decision competes, otherwise counts one suppression on the competing one; every refusal has its exact cause and changes nothing |
| `Decisions.MemoryService.BanManual` | internal/decision/service.go:135-178 | appends the new decision, after ending a competing manual one in the same step only on request; every refusal has its cause and changes nothing |
| `Decisions.MemoryService.Expire` | internal/decision/service.go:181-206 | ends exactly the due decisions, leaves none due and cannot fail on a positive time |
| `Decisions.MemoryService.Revoke` | internal/decision/service.go:209-241 | ends an active decision, answers the same outcome again unchanged, and never overwrites a terminal one; every refusal has its cause and changes nothing |
| `Decisions.RunDecisions` | internal/decision/service.go:94-241 | after any calls ids are unique, at most one decision is active per node, source and target, and terminal decisions never change |
| `Projection.AggregateProjection` | internal/decision/projection.go:14-72 | counts the active decisions and bans at t exactly when one of them is permanent or expires after t; refused exactly for foreign or invalid input |
| `Projection.OrderDoesNotMatter` | internal/decision/projection.go:14-72 | rearranged decision lists aggregate to the same content, count included |
| `Projection.MeaningDetermines` | internal/decision/transaction.go:188-197 | count and meaning determine a projection's content, so the content comparison compares meanings |
| `Projection.ProjectionStore.Rebuild` | internal/decision/transaction.go:149-186 | the stored projection says what the active decisions ask; a rewrite raises the revision by one, and without force happens exactly when the content differs |
| `Projection.ProjectionStore.Decide` | internal/decision/transaction.go:149-186 | writing decisions on one target and rebuilding it keeps every stored projection current, or changes nothing |
| `Projection.RunProjections` | internal/decision/transaction.go:149-186 | after any decision transactions every target decided on has a projection that says what its active decisions ask, and revisions never fell |
| `DesiredState.ResolvedStep` | internal/enforcement/intent.go:26-88 | the generation moves exactly with the meaning, by one, and resolving again changes nothing |
| `DesiredState.ResolvedMeans` | internal/enforcement/intent.go:26-112 | the intent bans when the projection does, and a native timeout never ends before the ban |
| `DesiredState.MaterializeTarget` | internal/decision/desired_state.go:146-197 | a changed intent is the next generation, above any ledger floor, and means what projection and policy mean |
| `DesiredState.MaterializeTargets` | internal/decision/desired_state.go:107-199 | every affected target is materialised by an accepted step, nothing else moves, and the change list is empty exactly if nothing changed |
| `DesiredState.DesiredStore.FinalizeTargets` | internal/decision/desired_state.go:84-102 | each commit is one step that the controller accepts, or no step |
| `DesiredState.DesiredStore.ReplacePolicy` | internal/store/policy_write.go:19-103 | a commit is an accepted step if and only if it does not rewrite an equal policy because of disabled rows; it leaves no disabled rows, every projection materialised, and the intents of absent targets alone unless scopes or backend change |
| `DesiredState.AbsentStay` | internal/enforcement/intent.go:61-64 | a policy that differs at most in coverage, relation or timeout mode leaves the intent and generation of every absent target alone |
| `DesiredState.DesiredStore.Decide` | internal/decision/desired_state.go:84-102 | a decision transaction is one accepted step, no step, or undone, and keeps every projection materialised |
| `DesiredState.RunDesired` | internal/decision/desired_state.go:84-219 | over any transactions every committed state is valid and lies ahead of all earlier ones, every projection is materialised, and without a disabled-row rewrite each commit is accepted after the one before |
| `DesiredState.RewriteAcceptedExactlyWhen` | internal/reconcile/controller.go:1314-1356 | a new policy revision is accepted if and only if the policy differs |
| `DesiredState.EqualRewriteIsRefused` | internal/reconcile/controller.go:1328-1330 | rewriting an equal policy as a new revision is refused |
| `DesiredState.EqualRevisionEqualContent` | internal/reconcile/controller.go:1314-1356 | along an accepted run an equal revision means equal policy and infrastructure |
| `DesiredState.EqualGenerationEqualIntent` | internal/reconcile/controller.go:1314-1356 | along an accepted run an equal generation means an equal intent |
| `DesiredState.EqualSnapshotEqualState` | internal/reconcile/controller.go:1314-1356 | along an accepted run an equal snapshot revision means an equal state |
| `DesiredState.ThereAndBackIsRefused` | internal/reconcile/controller.go:1314-1356 | a policy that changed and changed back is refused as one step |
| `DesiredState.TargetThereAndBackIsRefused` | internal/reconcile/controller.go:1314-1356 | so is a target whose intent changed and changed back |
| `DesiredState.LaterAcceptedExactlyWhen` | internal/reconcile/controller.go:1314-1356 | any later state of an accepted run is accepted in one step if and only if everything whose revision or generation grew also differs |
| `DesiredState.CommittedIsNotBehind` | internal/reconcile/desired_plan_provider.go:173-188 | what the database shows is never behind what was published from it before |
| `DesiredState.RunMovesForward` | internal/reconcile/controller.go:1314-1356 | revisions and generations never fall along an accepted run |
| `Node.Decide` | internal/decision/transaction.go:72-186 | a decision transaction with its finalisation happens entirely or not at all and keeps both halves of the database consistent |
| `Node.PublishedIsDecided` | internal/enforcement/intent.go:26-88 | for every target and time the published state bans exactly if an active decision asks for it |
| `Node.RunNode` | internal/decision/desired_state.go:84-219 | over any decision and policy transactions the published state bans exactly what the active decisions ask for, is valid and lies ahead of all published before; without disabled rows the controller accepts each commit after the one before |

## Left out

- Controller.Controller.SetDesiredSnapshot: is required to be called with snapshots no older than those published before on the same database, as its only caller, the plan provider, reads them from there; `DesiredState.CommittedIsNotBehind` shows that all such reads qualify as long as the configured infrastructure revision does not go down.
- Controller.Controller.Execute: plans are those of the plan provider, which fences every infrastructure plan; plan validation and `markInvalidPlan` are not part of this model.
- Controller.Controller.ApplyTransition: observed-state rows are not modelled; whether an observation was written or read back is an arbitrary answer.
- PolicyResolution.CanonicalPolicyRelationPrefixes: orders prefixes by family, address and length instead of by their text; the order is used only to make the listing unique.
- Protocol.RunOk: a commit is decided when it returns; the branch for an unsupported commit state is not modelled.
- Ledger.Ledger.Confirm: counters are unbounded, so wrap-around of a 64-bit count is not modelled; reservations are entries of the ledger named by tickets, not separate objects.
- Queue.RunOk: only the length of the list of acceptance times is kept; durations and rejection counts are not.
- Dispatcher.WakeIsHonoured: the worker's health, startup and deadline handling appears only as keys it may add to its ready list; shutdown of the worker is not modelled.
- DesiredState.MaterializeTargets: visits targets in any order instead of by name, and takes the target policy resolver as a parameter.
- Coverage.SourceStore.Seal: uses the database check that the durable end does not pass the final EOF.
- SQLite, row encoding, migrations and transactions are taken by their stated contract: all or nothing.
- The controller without a store, IPC framing and codecs, alerts, audit payloads and their digests.
- The parser, rule matching, the contents of detection effects and the writing of outcomes.
- DesiredState.RunDesired: disabled rows appear beside an unchanged policy. A row switched off would also drop out of the loaded policy under its old revision, but no operation of the repository switches one off.
- Node.Decide: takes any valid writes to decisions on one target; which writes RecordAutomaticInTransaction and the lifecycle service choose repeats the in-memory service over rows.
- Retirement and rotation of file generations, and the reader that produces deliveries.
- Configuration, credentials, runtime owners that start and join goroutines, and timers.
