# Verified models of the outbound platform's stateful cores

This project models the protocols of the API server (`apps/api`) in Dafny and proves what they
guarantee. Where the server changes rows or fields step by step, the model is a class whose methods
make the same changes in the same order; each method is proved to compute a specification function,
and the theorems are about that function over all inputs, all runs or all interleavings.

`dafny verify dfyconfig.toml` checks everything.

| files | what they model |
|---|---|
| `Identity`, `ClerkStore` | the Clerk webhook handlers over organization, membership, cursor and user tables |
| `IdentityEffects` | what each handler writes and when it refuses, on the columns of the rows |
| `IdentityProjection`, `IdentityRuns` | the projection every handler keeps, finality of deletions |
| `IdentityLocks`, `IdentityDeadlock` | what the handlers lock and write, and when the hashed locks exclude deadlock |
| `IdentityConvergence`, `IdentityDeliveries` | convergence of deliveries, one membership at a time and in whole runs of the handlers |
| `GraphRuns`, `GraphRunStore` | start, review, drive, heartbeat, clearing and recovery of pipeline runs, as atomic steps over rows, workers and stale jobs |
| `GraphRunEffects` | who may change which column of a run, and to what; from a pause to the next drive |
| `GraphRunSafety`, `GraphRunTheorems`, `GraphRunRecovery` | the protocol invariant, what it means for whole runs, progress of recovery, job ids |
| `Checkpoints` | the checkpoint store that retried jobs resume from |
| `Conversations`, `ConversationStore`, `ConversationEffects`, `ConversationProjection` | recording of inbound and delivered messages, what it does to artifacts, and the closed form of the conversation row |
| `Replies`, `ReplyDesk`, `ReplyEffects`, `ReplySingleFlight` | reply drafts, archive and dispatch reservation, review before dispatch, and the single open reply |
| `BootstrapQuiescence` | pausing and resuming the queues under the fence, with compensation, against calls that fail before or after taking effect |
| `CanonicalJson`, `CanonicalForm`, `CanonicalRoundTrip` | the canonical evidence text, character by character, with a parser for JSON as in sections 4, 5 and 7 of RFC 8259 |
| `OutreachStage`, `OutreachEffects`, `OutreachOutcomes` | the outreach loop, what it answers for one target, its counts |
| `OutreachRecipient`, `RecipientRanking` | the choice of a recipient, and what it means on the candidates' columns |
| `PipelineState` | channel reducers, the hand-written merge, and the delta the agent node returns |
| `Enrichment`, `EnrichmentEffects` | the bounded verification batch, its progress, and what it stores |
| `RateLimiter`, `CircuitBreakers` | the fixed-window limiter and the circuit breaker under overlapping calls |
| `ArtifactStatuses`, `Decimals`, `Options`, `Ordering`, `Sets` | shared types, decimal digits, the order of texts, sizes of sets |

A transaction or a conditional `updateMany` is one atomic step. Advisory locks are a lock table.
What an LLM, a provider or a queue answers is an argument or a nondeterministic choice. Clocks do
not run backwards.

## Where the code falls short of a plain statement

Each of these is stated with the condition under which the code does meet it, and with a case
where it does not.

- Resuming the queues: the original error does not always leave the queues paused. The check that
  precedes the `try` block throws it as well. All queues are paused afterwards if and only if all
  were paused before the call (`ResumeProductionBootstrapQueues`, `RefusedResumeLeavesQueuesRunning`).
- Identity locks: keys are ordered by name but locked by a 64-bit hash, so handlers can deadlock on
  a collision (`CollisionDeadlocks`). They never do if and only if the keys in play are free of
  crossings (`HandlersDeadlockExactlyWhenUnsafe`); distinct hashes, or collisions of membership
  keys only, are enough.
- Membership deliveries can end differently in different orders when event ids are reused for other
  bodies (`ReusedEventIdsDependOnOrder`, `TwoReusedIdsMask`), but not always
  (`FreshIdEndsTheMasking`); the exact condition is `OrderMattersExactlyWhenMaskable`, and
  redeliveries of unchanged events never meet it. A delete wins in every order if and only if some
  delete is at least as new as every grant (`DeleteWinsExactlyWhenNewest`).
- `needsReply` follows arrival order when the newest inbound and outbound message carry the same
  time (`TieFollowsArrival`); what holds without exception is `LastRecordedOfTheNewestDecides`.
- A thread resumes from its newest checkpoint if and only if no earlier one has a greater id
  (`OlderIdIsNotResumedFrom`); the code leaves the order of ids to its caller.
- The node delta drops the context channels: it reproduces the merged state if and only if those
  are unchanged (`DeltaReproducesState`). One merge differs from one reducer step exactly when the
  update names no stage and the list already repeats one (`MergeIsReduce`).
- The rate limiter admits one request per window even for a limit of zero
  (`LimitBelowOneAdmitsOne`); for positive limits the sliding bound is 2 * limit - 1
  (`SlidingBound`), and it is reached for every one of them (`BoundIsReached`).
- The outreach loop takes an empty person id for "not claimed", so two results can share an address
  (`EmptyIdsShareAnAddress`), but only when the earlier one has such an id
  (`RecipientsAreDistinct`); no row has one.

## Model

| member | source | states |
|---|---|---|
| `IdentityProjection.HandlerKeepsSound` | apps/api/src/auth/auth.service.ts:189-567 | No handler, in any branch, produces a row the production mismatch query would report: an active principal of a bound organization stays backed by live, agreeing organization, membership and cursor rows |
| `IdentityProjection.MembershipKeeps` | apps/api/src/auth/auth.service.ts:286-517 | The same for one membership delivery, including rollbacks, quarantine and the exits between the lifecycle write and the projection |
| `IdentityProjection.ActiveMembershipIsInStep` | apps/api/src/auth/auth.service.ts:734-767 | A delivery that the lifecycle rule accepts for an active principal is also accepted by the cursor rule, so the two never part |
| `IdentityProjection.StaleCursorMeansInactive` | apps/api/src/auth/auth.service.ts:752-767 | When the cursor refuses what the lifecycle row accepted, nobody is active on that membership |
| `IdentityProjection.QuarantineKeeps` | apps/api/src/auth/auth.service.ts:654-703 | Quarantining a membership whose tuple changed keeps the projection |
| `IdentityProjection.OrganizationSyncKeeps` | apps/api/src/auth/auth.service.ts:189-238 | Creating or renaming an organization keeps the projection |
| `IdentityProjection.OrganizationDeleteKeeps` | apps/api/src/auth/auth.service.ts:240-284 | Deleting an organization keeps the projection |
| `IdentityProjection.UserDeleteKeeps` | apps/api/src/auth/auth.service.ts:519-567 | Deleting a user keeps the projection |
| `IdentityProjection.ProvisioningKeeps` | apps/api/src/common/clerk-user-provisioning.ts:26-42 | Provisioning a workspace behind the tombstone check keeps the projection |
| `IdentityRuns.NoMismatchIsReachable` | apps/api/src/ops/production-bootstrap-quiescence.ts:1011-1032 | From empty tables on, no sequence of deliveries reaches a state the mismatch query would report, clause by clause of its bound-organization half |
| `IdentityRuns.RunIsLater` | apps/api/src/auth/auth.service.ts:189-567 | Tombstones of users, organizations and memberships survive every sequence of handlers |
| `IdentityRuns.UserDeletionIsFinal` | apps/api/src/auth/auth.service.ts:519-567 | After user.deleted that person is never active again, in any workspace, whatever arrives later |
| `IdentityRuns.OrganizationDeletionIsFinal` | apps/api/src/auth/auth.service.ts:240-284 | After organization.deleted nobody is ever active in that organization again |
| `IdentityRuns.MembershipTombstoneIsFinal` | apps/api/src/auth/auth.service.ts:628-703 | A tombstoned membership never again carries an active principal of a bound organization |
| `IdentityRuns.PrincipalsNeverMove` | apps/api/src/auth/auth.service.ts:286-517 | No run moves a principal to another organization row or another person |
| `IdentityRuns.OnlyCreatedDeliveriesGrant` | apps/api/src/auth/auth.service.ts:298-517 | Whoever becomes active does so by a created delivery for that person past an open cutover gate into a live organization, or in an unbound trial workspace |
| `IdentityEffects.CreatedDoes` | apps/api/src/auth/auth.service.ts:425-453 | A created delivery that reaches a person makes that person, and nobody else, an active member of the organization on this membership, with the delivered role, an owner staying owner when called administrator; it is rolled back exactly when a key is taken, and only recorded when something newer is known of the person |
| `IdentityEffects.UpdatedDoes` | apps/api/src/auth/auth.service.ts:455-482 | An updated delivery changes exactly the role of a person who is active on this membership; for anyone else it is rolled back |
| `IdentityEffects.DeletedDoes` | apps/api/src/auth/auth.service.ts:484-516 | A deleted delivery on the person's current membership leaves the person inactive as MEMBER and the cursor closed; on another one it is recorded and nothing else |
| `IdentityEffects.ChangedTupleIsQuarantined` | apps/api/src/auth/auth.service.ts:329-357 | A delivery that renames its membership's tuple takes authority from the stored person only, and gives the named one nothing |
| `IdentityEffects.OtherDeliveriesDo` | apps/api/src/auth/auth.service.ts:314-400 | What every other delivery does: nothing, a recorded lifecycle row, or a rollback |
| `IdentityEffects.RefusedExactly` | apps/api/src/auth/auth.service.ts:286-517 | For each reason, exactly which deliveries are rolled back, on the columns of the rows; a rollback changes nothing |
| `IdentityEffects.OrganizationSyncDoes` | apps/api/src/auth/auth.service.ts:189-238 | Which organization deliveries count, what they write, and when they are rolled back |
| `IdentityEffects.OrganizationDeleteDoes` | apps/api/src/auth/auth.service.ts:240-284 | One tombstone, and exactly the people of that tenant lose all authority |
| `IdentityEffects.UserDeleteDoes` | apps/api/src/auth/auth.service.ts:519-567 | One tombstone at the deletion's own version, and exactly that person loses all authority |
| `IdentityEffects.ProvisioningDoes` | apps/api/src/common/clerk-user-provisioning.ts:26-42 | Who gets a workspace, who keeps one and who is refused |
| `IdentityLocks.LockPlan` | apps/api/src/auth/auth.service.ts:569-585 | Every lock set is taken in one ascending order without repetition, and covers exactly the named keys |
| `IdentityLocks.HandlerWritesUnderLocks` | apps/api/src/auth/auth.service.ts:298-357 | Every lifecycle, membership, cursor and user row a handler changes is covered by a lock it holds |
| `IdentityLocks.MembershipChangesHoldBothTuples` | apps/api/src/auth/auth.service.ts:298-357 | A membership delivery that changes anything holds the locks of the incoming and of the stored tuple, however stale its pre-read was |
| `IdentityDeadlock.StepKeepsValid` | apps/api/src/auth/auth.service.ts:569-585 | Advisory locks stay exclusive under every interleaving of transactions |
| `IdentityDeadlock.PlanShape` | apps/api/src/auth/auth.service.ts:298-312 | A handler that takes more than one lock takes an organization first, then a user, and its one membership last |
| `IdentityDeadlock.HandlersDeadlockExactlyWhenUnsafe` | apps/api/src/auth/auth.service.ts:569-585 | For any number of concurrent handlers over any finite set of keys: no interleaving deadlocks if and only if no two keys in play that share a lock, the first an organization or user, have an organization or user of another lock between them (or no handler with these keys takes two locks, or all organizations share one lock) |
| `IdentityDeadlock.CollisionFreeIsSafe` | apps/api/src/auth/auth.service.ts:569-585 | Keys in play whose 64-bit hashes are distinct meet that condition |
| `IdentityDeadlock.MembershipCollisionsAreSafe` | apps/api/src/auth/auth.service.ts:569-585 | Collisions among membership keys alone meet it too |
| `IdentityDeadlock.CollisionDeadlocks` | apps/api/src/auth/auth.service.ts:569-585 | Two membership deliveries about one user deadlock by a concrete schedule when one's organization key and the other's membership key have the same hash |
| `IdentityDeadlock.UncrossedNeverDeadlocks` | apps/api/src/auth/auth.service.ts:569-585 | The positive half for any ascending plans, with a condition on the keys of those plans only |
| `IdentityConvergence.HandlerFollowsFold` | apps/api/src/auth/auth.service.ts:298-379 | What the handler does to a lifecycle row is the apply rule, whenever it commits past the gate |
| `IdentityConvergence.DeliveryOrderDoesNotMatter` | apps/api/src/auth/auth.service.ts:734-750 | Any order and duplication of created and updated deliveries gives the greatest version, then greatest rank, then least authority |
| `IdentityConvergence.OrderMattersExactlyWhenMaskable` | apps/api/src/auth/auth.service.ts:734-750 | For any history of grants: two orders end with different version, rank or role if and only if the event ids of the deliveries that should win can be hidden, each behind a delivery of more authority that reuses it |
| `IdentityConvergence.RedeliveriesAreNotMaskable` | apps/api/src/auth/auth.service.ts:740-749 | Genuine redeliveries never meet that condition |
| `IdentityConvergence.ReusedEventIdsDependOnOrder` | apps/api/src/auth/auth.service.ts:740-749 | One event id with two roles and nothing else makes the result depend on order |
| `IdentityConvergence.FreshIdEndsTheMasking` | apps/api/src/auth/auth.service.ts:740-749 | A reused id is harmless once the winning role also comes under an id of its own |
| `IdentityConvergence.TwoReusedIdsMask` | apps/api/src/auth/auth.service.ts:740-749 | The winning role under two ids is still lost when both are reused for more authority |
| `IdentityConvergence.NewestDeleteWins` | apps/api/src/auth/auth.service.ts:734-750 | A delete at least as new as every other delivery wins in every order |
| `IdentityConvergence.DeleteWinsExactlyWhenNewest` | apps/api/src/auth/auth.service.ts:734-750 | For any history: a delete wins in every order if and only if some delete is at least as new as every grant |
| `IdentityDeliveries.RunFollowsFold` | apps/api/src/auth/auth.service.ts:298-517 | In whole runs of the handlers, with refusals, retries and all other traffic in between, the row of a membership is the fold of the deliveries committed for it |
| `IdentityDeliveries.HandlersConverge` | apps/api/src/auth/auth.service.ts:298-517 | Two such runs that commit the same grants for a membership leave it with the same version, rank and role |
| `IdentityDeliveries.NewestDeleteWinsInRuns` | apps/api/src/auth/auth.service.ts:298-517 | A run that commits a delete at least as new as every grant it commits and as the row it started from leaves the membership deleted, wherever the delete comes |
| `ClerkService.ClerkStore.SyncOrganization` | apps/api/src/auth/auth.service.ts:189-238 | The transaction, one table at a time, does exactly what its specification says, and rolls back to the old tables on a refusal |
| `ClerkService.ClerkStore.DeactivateOrganization` | apps/api/src/auth/auth.service.ts:240-284 | Same for organization.deleted |
| `ClerkService.ClerkStore.PersistMembershipLifecycle` | apps/api/src/auth/auth.service.ts:628-652 | The lifecycle upsert touches one membership row only |
| `ClerkService.ClerkStore.PersistUserCursor` | apps/api/src/auth/auth.service.ts:705-732 | The cursor upsert: one row, with MEMBER as the role of an inactive cursor |
| `ClerkService.ClerkStore.QuarantineMembershipTuple` | apps/api/src/auth/auth.service.ts:654-703 | Quarantine tombstones the membership, closes a cursor that points at it and deactivates its principal |
| `ClerkService.ClerkStore.ApplyMembershipEvent` | apps/api/src/auth/auth.service.ts:286-375 | The membership transaction up to the projection: gate, stale pre-read, quarantine, apply rule |
| `ClerkService.ClerkStore.ProjectMembership` | apps/api/src/auth/auth.service.ts:376-516 | The projection: created, updated and deleted branches with their refusals |
| `ClerkService.ClerkStore.DeactivateDeletedUser` | apps/api/src/auth/auth.service.ts:519-567 | Same for user.deleted |
| `GraphRunSafety.StepKeepsInv` | apps/api/src/graph/graph-run.worker.ts:354-454 | Every atomic step of start, review, drive, heartbeat, crash, clear, recovery and exhaustion keeps the protocol invariant |
| `GraphRunSafety.ClearOnlyHitsStoppedRows` | apps/api/src/graph/graph-run.worker.ts:402-414 | The write that clears a decision never reaches a RUNNING row |
| `GraphRunTheorems.RunningCarriesLatestDecision` | apps/api/src/graph/graph-run.worker.ts:385-416 | In every reachable state a RUNNING run carries exactly the latest accepted decision, and a worker that picks it up drives that |
| `GraphRunTheorems.OneDecisionPerPause` | apps/api/src/graph/graph.service.ts:206-258 | Between two accepted decisions on one run there is always a new pause, so no pause is both granted and denied |
| `GraphRunTheorems.OneActiveRunPerOrganization` | apps/api/src/graph/graph.service.ts:68-138 | At most one run of an organization is RUNNING or AWAITING_APPROVAL, in every reachable state |
| `GraphRunTheorems.OneCommitPerGeneration` | apps/api/src/graph/graph.service.ts:412-531 | At most one transition out of RUNNING and at most one recovery claim commits per run and generation |
| `GraphRunTheorems.RunIsLater` | apps/api/src/graph/graph.service.ts:412-531 | Generations never decrease; COMPLETED, FAILED and CANCELLED absorb |
| `GraphRunTheorems.PendingIsStablePerGeneration` | apps/api/src/graph/graph.service.ts:206-258 | While a run stays RUNNING at one generation its pending decision does not change |
| `GraphRunTheorems.ContinuationRecheckAgrees` | apps/api/src/graph/graph.service.ts:536-591 | A checkpoint continuation rechecked at the drive finds its checkpoint or finds itself superseded; the two error branches are unreachable from it |
| `GraphRunTheorems.RecoveredRunsAreDrivable` | apps/api/src/graph/graph-run.worker.ts:418-453 | Every run in a reachable state has a decision, a checkpoint or a nonempty seed to drive from |
| `GraphRunRecovery.BatchIsDetermined` | apps/api/src/graph/graph-run.worker.ts:514-523 | The rows a sweep reads are determined by the table: oldest activity first, then smallest id |
| `GraphRunRecovery.TriedClaimSettles` | apps/api/src/graph/graph-run.worker.ts:514-563 | Once a claim for a stale run was tried, the run is no longer stale at that cutoff, whoever won |
| `GraphRunRecovery.SweepShrinksBacklog` | apps/api/src/graph/graph-run.worker.ts:511-563 | A sweep takes the whole backlog or at least the limit off it |
| `GraphRunRecovery.BacklogDrains` | apps/api/src/graph/graph-run.worker.ts:511-563 | n runs stale at a cutoff are all claimed or moved on after ceil(n / 100) sweeps, whatever else happens in between |
| `GraphRunServices.CompletedLoopIsASweep` | apps/api/src/graph/graph-run.worker.ts:511-563 | The claim loop over the rows its query read, with anything in between its claims, is such a sweep |
| `GraphRunRecovery.JobIdsAreInjective` | apps/api/src/graph/graph-run-queue.service.ts:59-71 | Equal job ids mean equal run and generation, although run ids may contain hyphens |
| `GraphRunEffects.DriveDecidesStatus` | apps/api/src/graph/graph.service.ts:412-531 | A drive that ends at its run's own generation leaves it AWAITING_APPROVAL exactly on a pause, COMPLETED exactly at the end, FAILED exactly when stages or a stage failed, and as it was exactly on a retryable error; a superseded drive touches nothing |
| `GraphRunEffects.PauseIsResumed` | apps/api/src/graph/graph.service.ts:187-258 | After a pause, whatever else happens, the first decision of the run's own organization makes it RUNNING one generation later, and the next drive resumes with that decision |
| `GraphRunEffects.PauseLasts` | apps/api/src/graph/graph.service.ts:187-258 | A run that waits for approval waits, at its generation, until it is reviewed |
| `GraphRunEffects.StatusColumn` | apps/api/src/graph/graph.service.ts:412-531 | For every step and run: the new status, from who may change it |
| `GraphRunEffects.GenerationColumn` | apps/api/src/graph/graph-run.worker.ts:530-543 | The generation moves by one with an accepted decision or a won claim, and never otherwise |
| `GraphRunEffects.PendingColumn` | apps/api/src/graph/graph-run.worker.ts:402-414 | The pending decision is set by an accepted decision and cleared by the worker that drove it, at its generation |
| `GraphRunEffects.ActivityColumn` | apps/api/src/graph/graph-run.worker.ts:595-612 | Who renews the lease of a run |
| `GraphRunEffects.NewRuns` | apps/api/src/graph/graph.service.ts:57-138 | Exactly which starts create a run, and with which columns; seeds keep the order in which ids first stood |
| `GraphRunEffects.WorkerColumn` | apps/api/src/graph/graph-run.worker.ts:354-416 | What becomes of each worker at each step |
| `GraphRunEffects.LogColumn` | apps/api/src/graph/graph.service.ts:187-531 | Every decision, exit and claim is one entry of the history, and nothing else is |
| `GraphRunEffects.InputFollowsRow` | apps/api/src/graph/graph-run.worker.ts:418-453 | A pending decision goes before a checkpoint, a checkpoint before the seeds |
| `GraphRunEffects.ResolutionFollowsRow` | apps/api/src/graph/graph.service.ts:536-591 | Only a continuation is rechecked, on the row and the checkpoints as they are by then |
| `GraphRunServices.GraphRunStore.RunPipelineGraph` | apps/api/src/graph/graph.service.ts:57-138 | The start transaction in its own form, with the exact reason of each refusal |
| `GraphRunServices.GraphRunStore.ResumePipelineGraph` | apps/api/src/graph/graph.service.ts:187-258 | The review transaction in its own form: one decision per won claim |
| `GraphRunServices.GraphRunStore.AdmitJob` | apps/api/src/graph/graph-run.worker.ts:354-453 | A delivered job is driven exactly when run, organization, status and generation match, with the input the durable row calls for |
| `GraphRunServices.GraphRunStore.TransitionOut` | apps/api/src/graph/graph.service.ts:412-531 | The fenced write out of RUNNING, true exactly for its winner |
| `GraphRunServices.GraphRunStore.MarkTerminalFailure` | apps/api/src/graph/graph-run.worker.ts:614-633 | Exhausted retries fail the run only at the generation they ran at |
| `GraphRunServices.GraphRunStore.TouchActivity` | apps/api/src/graph/graph-run.worker.ts:595-612 | A heartbeat touches a RUNNING row of its own generation only |
| `GraphRunServices.GraphRunStore.TryClaim` | apps/api/src/graph/graph-run.worker.ts:530-543 | The compare-and-swap claim: one generation up, a fresh lease, true exactly for its winner |
| `GraphRunServices.GraphRunStore.RecoverOrphanedRuns` | apps/api/src/graph/graph-run.worker.ts:524-563 | The claim loop: one job at the new generation for each won claim that could be published, no other; a failed publication leaves the claim |
| `GraphRunServices.PublishedAreTheWonClaims` | apps/api/src/graph/graph-run.worker.ts:530-563 | Exactly the won claims that could be published are, at the generation they moved to |
| `Checkpoints.OrdinaryWritesAreFirstWins` | apps/api/src/graph/prisma-checkpointer.ts:258-291 | An ordinary write position keeps its first value for ever |
| `Checkpoints.ReservedWritesAreLastWins` | apps/api/src/graph/prisma-checkpointer.ts:258-291 | A reserved channel keeps its last value |
| `Checkpoints.OtherWritesStay` | apps/api/src/graph/prisma-checkpointer.ts:258-291 | No other key is touched |
| `Checkpoints.RetryAfterCrashIsInvisible` | apps/api/src/graph/prisma-checkpointer.ts:242-292 | A task that dies after any number of its writes and repeats them all leaves what one undisturbed attempt leaves |
| `Checkpoints.PrismaCheckpointSaver.PutWrites` | apps/api/src/graph/prisma-checkpointer.ts:242-292 | Refused without a thread or a checkpoint id; else the upsert loop computes that |
| `Checkpoints.PrismaCheckpointSaver.Put` | apps/api/src/graph/prisma-checkpointer.ts:190-240 | Refused without a thread id; else the row becomes a child of the checkpoint that was loaded, every other key looks up as before, the answer addresses the new checkpoint, and a table that reflects a history of writes reflects the longer one |
| `Checkpoints.LatestIsGreatestSaved` | apps/api/src/graph/prisma-checkpointer.ts:38-61 | After any history of writes, in any order and with repetitions, a thread resumes from the greatest id ever written to it, as last written |
| `Checkpoints.ResumesFromNewest` | apps/api/src/graph/prisma-checkpointer.ts:38-61 | While the ids of a thread do not go back it resumes from its newest checkpoint, as written |
| `Checkpoints.OlderIdIsNotResumedFrom` | apps/api/src/graph/prisma-checkpointer.ts:38-61 | The newest write is resumed from if and only if no earlier one of the thread has a greater id |
| `Checkpoints.PrismaCheckpointSaver.GetTuple` | apps/api/src/graph/prisma-checkpointer.ts:38-108 | The checkpoint asked for, else the one with the greatest id of the thread and namespace, with its parent and exactly the writes made on it; none exactly when there is none, or no thread id |
| `Checkpoints.PrismaCheckpointSaver.DeleteThread` | apps/api/src/graph/prisma-checkpointer.ts:294-299 | All rows of the thread go, nothing else |
| `ConversationProjection.RunIsClosedForm` | apps/api/src/conversation-store/conversation-store.service.ts:165-265 | For any order and duplication of recordings the row is a closed form of what is stored: maxima, minimum, unread count, and needsReply of the last recorded of the newest messages |
| `ConversationProjection.InboundKeeps` | apps/api/src/conversation-store/conversation-store.service.ts:110-290 | Recording an inbound message keeps the closed form, on every exit |
| `ConversationProjection.DeliveryKeeps` | apps/api/src/conversation-store/conversation-store.service.ts:292-506 | Recording a delivered artifact keeps the closed form, on every exit |
| `ConversationProjection.NeedsReplyIsNeverSuppressed` | apps/api/src/conversation-store/conversation-store.service.ts:617-635 | In every reachable thread, for every inbound push onto a stored or a new row, the update that would set needsReply to false finds its guard false on the row the first five updates left, so it never fires |
| `ConversationProjection.LastRecordedOfTheNewestDecides` | apps/api/src/conversation-store/conversation-store.service.ts:556-682 | In every reachable thread, ties included, time, preview and needsReply are those of the newest message, among equally new ones of the last recorded |
| `ConversationProjection.ArrivalOrderDoesNotMatter` | apps/api/src/conversation-store/conversation-store.service.ts:556-682 | Two histories with the same messages show the same watermarks, and the same needsReply unless inbound and outbound tie |
| `ConversationProjection.TieFollowsArrival` | apps/api/src/conversation-store/conversation-store.service.ts:556-682 | On a tie the message recorded last decides needsReply |
| `ConversationProjection.RepeatedInboundChangesNothing` | apps/api/src/conversation-store/conversation-store.service.ts:205-257 | A repeated push changes no derived column |
| `ConversationEffects.DeliveryAnswers` | apps/api/src/conversation-store/conversation-store.service.ts:292-506 | Exactly which deliveries are stored, repeated, refused or unknown, on the artifact's and the messages' columns |
| `ConversationEffects.RefusedDeliveryChangesNothing` | apps/api/src/conversation-store/conversation-store.service.ts:292-506 | A delivery that is not stored changes nothing |
| `ConversationEffects.DeliveredArtifactIsSent` | apps/api/src/conversation-store/conversation-store.service.ts:372-470 | A stored delivery leaves its artifact SENT at the message's time, tied to message, thread and conversation, and every other artifact and message as it was |
| `ConversationEffects.DeliveryIsRecordedOnce` | apps/api/src/conversation-store/conversation-store.service.ts:421-506 | Recorded again, the same delivery is answered as stored and changes nothing |
| `ConversationEffects.InboundAnswers` | apps/api/src/conversation-store/conversation-store.service.ts:110-257 | Exactly which inbound messages are unmatched, in conflict, repeated or new |
| `ConversationEffects.InboundLinksSentMail` | apps/api/src/conversation-store/conversation-store.service.ts:185-204 | A stored inbound message links exactly the sent e-mails of the thread that had no conversation |
| `ConversationEffects.RowColumns` | apps/api/src/conversation-store/conversation-store.service.ts:556-682 | Archived flag, unread count and stop reason after every event |
| `ConversationEffects.TimesMove` | apps/api/src/conversation-store/conversation-store.service.ts:556-682 | Each time column moves with new messages only, in its own direction |
| `ConversationEffects.NewestMoves` | apps/api/src/conversation-store/conversation-store.service.ts:646-682 | The newest message, its preview and the request for a reply move with new messages only |
| `ConversationEffects.InboundUpdates` | apps/api/src/conversation-store/conversation-store.service.ts:600-644 | For any row: an inbound message that is not older than the newest becomes it, and asks for a reply unless something was sent after it |
| `ConversationEffects.NewRowColumns` | apps/api/src/conversation-store/conversation-store.service.ts:165-183 | Every column of the row a first recording creates |
| `ConversationService.ConversationStore.ApplyInboundConversationState` | apps/api/src/conversation-store/conversation-store.service.ts:556-644 | The six conditional updates, in their order, compute the specified row |
| `ConversationService.ConversationStore.ApplyOutboundConversationState` | apps/api/src/conversation-store/conversation-store.service.ts:646-682 | Same for the two outbound updates |
| `ConversationService.ConversationStore.RecordInboundGmailMessage` | apps/api/src/conversation-store/conversation-store.service.ts:110-290 | The inbound transaction in its own form, put back when refused |
| `ConversationService.ConversationStore.RecordDeliveredGmailArtifact` | apps/api/src/conversation-store/conversation-store.service.ts:292-506 | The delivery transaction in its own form, put back when refused |
| `ConversationService.ConversationStore.MayRecord` | apps/api/src/conversation-store/conversation-store.service.ts:684-719 | The checks on the artifact, in their order |
| `ConversationService.ConversationStore.MaterializeDelivery` | apps/api/src/conversation-store/conversation-store.service.ts:421-506 | Insert unless present, check that it is this delivery, project once |
| `ReplySingleFlight.OneOpenReply` | apps/api/src/conversations/conversations.service.ts:229-306 | In every run of drafts, reviews, dispatches, archives and inbound messages a thread has at most one open reply, none while archived, and one reply slot per inbound message |
| `ReplySingleFlight.StepKeeps` | apps/api/src/conversations/conversations.service.ts:229-306 | Each of those steps keeps that, also with steps of other threads in between |
| `ReplySingleFlight.CreatedDraftStandsAlone` | apps/api/src/conversations/conversations.service.ts:689-809 | A created reply is the only open one of its thread, answers the message that is latest at commit, and rewrites nothing that was sent or is in flight |
| `ReplySingleFlight.RefusedDraftChangesNothing` | apps/api/src/conversations/conversations.service.ts:705-760 | A refused draft changes nothing and its reason is the true one |
| `ReplySingleFlight.ArchiveIsAStopBoundary` | apps/api/src/conversations/conversations.service.ts:233-306 | A committed archive leaves no open reply and rewrites only what had not reached the provider; it is refused exactly when a reply is in flight |
| `ReplySingleFlight.ClaimIsExclusive` | apps/api/src/outreach/send-outreach.worker.ts:754-1034 | A reply claimed for dispatch answers the latest inbound message, alone in flight in its thread, and nothing was sent for that message before |
| `ReplyEffects.DraftAnswers` | apps/api/src/conversations/conversations.service.ts:661-809 | Exactly why a draft is refused, on the columns of the rows in its way |
| `ReplyEffects.CreatedDraftAwaitsReview` | apps/api/src/conversations/conversations.service.ts:762-809 | A new draft is PENDING_REVIEW in this conversation and thread for the message it answers; exactly the waiting replies to other messages give way |
| `ReplyEffects.NothingIsSentUnreviewed` | apps/api/src/conversations/conversations.service.ts:661-809 | In every run from an empty desk, a reply that is approved, in flight, sent or claimed was created by a draft and, as it waited, approved by a later review |
| `ReplyEffects.RejectedIsFinal` | apps/api/src/outreach/send-outreach.worker.ts:754-790 | A rejected or suppressed reply stays so in every run, and no worker ever holds it |
| `ReplyEffects.StatusColumn` | apps/api/src/outreach/send-outreach.worker.ts:754-1034 | For every step and row: the new status, from who may change it |
| `ReplyEffects.ArchiveStops` | apps/api/src/conversations/conversations.service.ts:229-306 | Exactly when an archive commits, and exactly which replies it stops |
| `ReplyEffects.ReservationAnswers` | apps/api/src/outreach/send-outreach.worker.ts:754-1034 | Exactly when a reply is claimed, stopped, postponed or left alone, and what each writes |
| `ReplyEffects.ClaimsColumn` | apps/api/src/outreach/send-outreach.worker.ts:754-1034 | Who holds a claim after each step |
| `ReplyServices.ReplyDesk.FindBlockingReplyArtifact` | apps/api/src/conversations/conversations.service.ts:618-659 | None exactly when no row blocks; else the oldest blocking row |
| `ReplyServices.ReplyDesk.PersistReplyArtifact` | apps/api/src/conversations/conversations.service.ts:661-809 | The draft transaction in its own form; a repeated request is answered with the oldest blocking row |
| `ReplyServices.ReplyDesk.ArchiveConversation` | apps/api/src/conversations/conversations.service.ts:229-306 | The archive transaction in its own form |
| `ReplyServices.ReplyDesk.UnarchiveConversation` | apps/api/src/conversations/conversations.service.ts:308-316 | Unarchiving reopens the conversation and no reply |
| `ReplyServices.ReplyDesk.ReserveForDispatch` | apps/api/src/outreach/send-outreach.worker.ts:754-1034 | The dispatch reservation of a reply in its own form |
| `BootstrapQuiescence.BootstrapRuntime.AcquireFence` | apps/api/src/ops/production-bootstrap-quiescence.ts:354-375 | Takes a free fence or keeps its own, never another attempt's, even when a rival takes it in between |
| `BootstrapQuiescence.BootstrapRuntime.VerifyFence` | apps/api/src/ops/production-bootstrap-quiescence.ts:377-386 | Passes only when the fence was read to hold this attempt |
| `BootstrapQuiescence.BootstrapRuntime.ReleaseFence` | apps/api/src/ops/production-bootstrap-quiescence.ts:388-404 | Releases only its own fence, only after reading it as its own |
| `BootstrapQuiescence.BootstrapRuntime.PauseProductionBootstrapQueues` | apps/api/src/ops/production-bootstrap-quiescence.ts:496-543 | Returns only with every queue paused, send queue first and each with the fence just read as ours, and read idle within maxPolls snapshots; resumes and releases nothing whichever way it ends; when nothing fails it ends otherwise only for bad arguments, another attempt's fence, or queues that stay busy |
| `BootstrapQuiescence.BootstrapRuntime.ResumeAndRelease` | apps/api/src/ops/production-bootstrap-quiescence.ts:579-588 | agent-runs is never resumed; the release is called only after both other queues were read back running |
| `BootstrapQuiescence.BootstrapRuntime.Compensate` | apps/api/src/ops/production-bootstrap-quiescence.ts:589-605 | Names exactly the queues not confirmed paused, in pause order |
| `BootstrapQuiescence.BootstrapRuntime.ResumeProductionBootstrapQueues` | apps/api/src/ops/production-bootstrap-quiescence.ts:571-613 | For every choice of failing calls: what a normal return, a compensation error and the original error each mean, and which calls were made in which order; when nothing fails and the queues are paused and idle under its fence it resumes; the original error leaves all queues paused if and only if all were paused before the call |
| `BootstrapQuiescence.RefusedResumeLeavesQueuesRunning` | apps/api/src/ops/production-bootstrap-quiescence.ts:576-578 | The check before the try block throws the original error without pausing anything |
| `CanonicalRoundTrip.CanonicalTextParses` | apps/api/src/ops/production-bootstrap-quiescence.ts:180-201 | A JSON parser reads the canonical text back as the value, fields in key order |
| `CanonicalRoundTrip.CanonicalTextDecidesEquality` | apps/api/src/ops/production-bootstrap-quiescence.ts:180-201 | Two evidence values have one canonical text if and only if they are equal as JSON values: key order does not matter and nothing else is lost |
| `CanonicalForm.WhatHasAText` | apps/api/src/ops/production-bootstrap-quiescence.ts:180-201 | Atoms have a text, numbers exactly if they are safe integers, arrays and objects exactly if all their parts do |
| `CanonicalForm.CanonicalTextIs` | apps/api/src/ops/production-bootstrap-quiescence.ts:180-201 | The text of each kind of value: parts joined by commas without white space, keys sorted and none lost |
| `CanonicalForm.EscapeIs` | apps/api/src/ops/production-bootstrap-quiescence.ts:181-183 | What each code unit becomes inside quotes |
| `CanonicalForm.QuotedIs` | apps/api/src/ops/production-bootstrap-quiescence.ts:181-183 | Surrogate pairs stay, everything else is escaped unit by unit |
| `CanonicalForm.DecimalIs` | apps/api/src/ops/production-bootstrap-quiescence.ts:184-189 | Digits without leading zero, after a minus below zero only |
| `CanonicalRoundTrip.StringRoundTrip` | apps/api/src/ops/production-bootstrap-quiescence.ts:181-183 | Every string, lone surrogates and control characters included, survives its JSON quotation |
| `CanonicalRoundTrip.NumberRoundTrip` | apps/api/src/ops/production-bootstrap-quiescence.ts:184-189 | Every safe integer survives its decimal text |
| `CanonicalRoundTrip.SortIncreases` | apps/api/src/ops/production-bootstrap-quiescence.ts:193-198 | Sorted keys are strictly increasing by code unit |
| `OutreachOutcomes.OutreachAgent` | apps/api/src/graph/pipeline-graph.ts:552-899 | One outcome per target in target order, counts that add up to the artifacts, and COMPLETE if and only if no target failed and each has an artifact of its own |
| `OutreachEffects.TargetAnswers` | apps/api/src/graph/pipeline-graph.ts:655-854 | Every exit of the loop body on the target's own rows: each refusal with its reason, what a row of the run or a draft is reported as, and which address is claimed |
| `OutreachEffects.OutcomesAnswer` | apps/api/src/graph/pipeline-graph.ts:649-854 | Each target is answered so, with the claims of the targets before it |
| `OutreachEffects.TargetsAreTheFirstTen` | apps/api/src/graph/pipeline-graph.ts:598-604 | The targets are the first ten leads of tiers A and B, in score order |
| `OutreachOutcomes.RecipientsAreDistinct` | apps/api/src/graph/pipeline-graph.ts:750-816 | Results that did not fail have pairwise distinct recipient addresses, a claim by an empty person id apart |
| `OutreachOutcomes.EmptyIdsShareAnAddress` | apps/api/src/graph/pipeline-graph.ts:750-816 | With an empty person id in the list two results do share an address |
| `OutreachOutcomes.RecipientsAreCurrent` | apps/api/src/graph/pipeline-graph.ts:666-715 | A result that did not fail goes to the address the ranking selects now |
| `OutreachOutcomes.ResultsAreConsistent` | apps/api/src/graph/pipeline-graph.ts:764-852 | An artifact comes with its status, the outcome is the one the status calls for, and exactly failures carry an error |
| `OutreachOutcomes.OneOutcomePerTarget` | apps/api/src/graph/pipeline-graph.ts:649-854 | Exactly one outcome per target, in order |
| `OutreachOutcomes.CompleteMeansOwnArtifacts` | apps/api/src/graph/pipeline-graph.ts:856-886 | As many artifacts as results if and only if every result has one no other result shares |
| `OutreachOutcomes.CountsPartition` | apps/api/src/graph/pipeline-graph.ts:856-877 | Pending, sent, failed and other persisted artifacts are disjoint and make up all of them |
| `OutreachOutcomes.Summarize` | apps/api/src/graph/pipeline-graph.ts:856-877 | The counts of the stage message are those |
| `OutreachOutcomes.RunTargets` | apps/api/src/graph/pipeline-graph.ts:649-854 | The loop computes the specified outcomes and claims |
| `OutreachOutcomes.OneTarget` | apps/api/src/graph/pipeline-graph.ts:655-854 | The loop body with its early exits, error by error |
| `PipelineState.DeltaReproducesState` | apps/api/src/graph/pipeline-graph.ts:918-953 | Reducing the input with the returned delta gives the internally merged state if and only if the five context channels are unchanged |
| `PipelineState.NewStagesSuffice` | apps/api/src/graph/pipeline-graph.ts:946-948 | Sending only the new stages gives back the whole list, order and de-duplication included |
| `PipelineState.MergeIsReduce` | apps/api/src/graph/pipeline-graph.ts:111-131 | One merge is one reducer step exactly when the update names stages or no stage is repeated |
| `PipelineState.StagesAsNodesAgree` | apps/api/src/graph/state.ts:81-117 | Run as separate graph nodes the stages would reach the same state |
| `PipelineState.AutonomousSdrAgent` | apps/api/src/graph/pipeline-graph.ts:907-955 | The node returns a delta with that property |
| `RecipientRanking.SelectedIsTheWinner` | apps/api/src/graph/outreach-recipient.ts:69-154 | On the candidates' own columns: nobody is selected exactly when no usable candidate is verified VALID, published, or a learned pattern; otherwise the first of these classes that is not empty wins, within it the highest confidence, then the latest verification, the earliest creation, the smallest id; the answer describes the winner |
| `RecipientRanking.NormalizeFindsNormalForm` | apps/api/src/graph/outreach-recipient.ts:176-186 | A normalized address is what stands between the white space, in small letters, with one @ inside and at most 512 characters, and nothing else normalizes |
| `OutreachRecipient.BestIsBest` | apps/api/src/graph/outreach-recipient.ts:69-104 | A recipient is found exactly when some candidate is eligible, and none outranks it |
| `OutreachRecipient.RowOrderDoesNotMatter` | apps/api/src/graph/outreach-recipient.ts:69-104 | With one row per id no order and no repetition of rows changes the recipient |
| `OutreachRecipient.SelectOutreachRecipient` | apps/api/src/graph/outreach-recipient.ts:69-104 | Best per address, then sorted, selects what one plain scan selects |
| `OutreachRecipient.NotBeforeIsTransitive` | apps/api/src/graph/outreach-recipient.ts:138-154 | The comparison is a strict weak order |
| `Enrichment.MergeCandidates` | apps/api/src/leads/leads.service.ts:676-698 | One candidate per address: stored ones first, learned ones take over |
| `Enrichment.SelectBatch` | apps/api/src/leads/leads.service.ts:708-763 | Distinct addresses, min(10, distinct candidates) of them, the best stored retry and the first new generated address among them |
| `Enrichment.Persist` | apps/api/src/leads/leads.service.ts:769-814 | Each attempted address is settled by its own verdict, an unverified one at confidence 0; no other row changes |
| `Enrichment.EnrichPerson` | apps/api/src/leads/leads.service.ts:654-815 | One pass over a person: nothing when an address is usable, else a fair batch and its verdicts |
| `Enrichment.BatchMakesProgress` | apps/api/src/leads/leads.service.ts:708-763 | While a generated address is not stored, a fair batch holds at least one of those |
| `Enrichment.PassMakesProgress` | apps/api/src/leads/leads.service.ts:654-815 | While an address is untried and none usable, a pass tries at least one; no tried address becomes untried |
| `Enrichment.NoAddressStarves` | apps/api/src/leads/leads.service.ts:654-815 | After as many passes as untried addresses, one became usable or all were tried |
| `EnrichmentEffects.UsableMeans` | apps/api/src/leads/leads.service.ts:1633-1648 | Which stored addresses need no retry |
| `EnrichmentEffects.SortedInRetryOrder` | apps/api/src/leads/leads.service.ts:676-683 | Retries stand by falling confidence, then by address, and none is lost |
| `EnrichmentEffects.SettledRecords` | apps/api/src/leads/leads.service.ts:773-812 | Each column of an attempted address after each verdict |
| `EnrichmentEffects.FailedAddressYields` | apps/api/src/leads/leads.service.ts:773-785 | An address that failed yields to every address with confidence left |
| `RateLimiter.SlidingBound` | apps/api/src/common/rate-limit.guard.ts:60-93 | Every half-open interval of one window admits at most 2 * limit - 1 requests of a key; a limit below one still admits one per window |
| `RateLimiter.LimitBelowOneAdmitsOne` | apps/api/src/common/rate-limit.guard.ts:60-85 | A limit of zero or below admits the request that opens a window and refuses the next |
| `RateLimiter.BoundIsReached` | apps/api/src/common/rate-limit.guard.ts:60-85 | For every positive limit and every window of at least two milliseconds that bound is reached |
| `RateLimiter.StoreIsBounded` | apps/api/src/common/rate-limit.guard.ts:65-77 | The store never exceeds maxEntries |
| `RateLimiter.SweepingIsInvisibleToFewKeys` | apps/api/src/common/rate-limit.guard.ts:65-93 | Requests from at most maxEntries distinct keys get the decisions of an unswept store |
| `RateLimiter.SweepingIsInvisible` | apps/api/src/common/rate-limit.guard.ts:87-93 | While capacity turns nobody away, the swept store takes the decisions of an unswept one |
| `RateLimiter.RateLimitGuard.SweepExpired` | apps/api/src/common/rate-limit.guard.ts:87-93 | The sweep loop drops exactly the expired windows |
| `RateLimiter.RateLimitGuard.ConsumeOne` | apps/api/src/common/rate-limit.guard.ts:60-85 | consume in its own form |
| `CircuitBreakers.OneProbeAtMost` | apps/api/src/common/http-retry.util.ts:265-302 | Under every interleaving one probe at most, none while CLOSED, and fewer than failureThreshold retained failures while CLOSED |
| `CircuitBreakers.CallsStartExactlyWhenDue` | apps/api/src/common/http-retry.util.ts:265-290 | From the history alone: everyone starts while the circuit is shut; once it has tripped, one probe at a time from openDurationMs on, and anyone else is told when |
| `CircuitBreakers.CallsEndOnce` | apps/api/src/common/http-retry.util.ts:277-322 | What the end of each call adds to the history |
| `CircuitBreakers.NoStartWhileOpen` | apps/api/src/common/http-retry.util.ts:265-302 | Until a probe succeeds only probes start, each at least openDurationMs after the latest opening |
| `CircuitBreakers.OpensExactlyAtThreshold` | apps/api/src/common/http-retry.util.ts:310-322 | The circuit opens exactly when a probe fails or a failure is at least the threshold-th within windowMs with no success between |
| `CircuitBreakers.RecordingRetains` | apps/api/src/common/http-retry.util.ts:310-317 | The pruned failure list is the window over the history of failures since the last success |
| `CircuitBreakers.CircuitBreaker.Begin` | apps/api/src/common/http-retry.util.ts:265-277 | Admission in its own form |
| `CircuitBreakers.CircuitBreaker.Record` | apps/api/src/common/http-retry.util.ts:310-322 | The pruning loop in its own form |
| `CircuitBreakers.CircuitBreaker.FinishClosed` | apps/api/src/common/http-retry.util.ts:292-302 | The end of an ordinary call |
| `CircuitBreakers.CircuitBreaker.FinishProbe` | apps/api/src/common/http-retry.util.ts:277-290 | The end of a probe, in the same turn as the flag it clears |
## Left out

- Token and webhook signature checks, encryption, OAuth, environment validation: configuration and cryptography.
- Parsing and shape checks of webhook bodies, e-mail and message normalisation beyond recipient addresses.
- Unbound workspaces in the projection query and the orphan-authority query: the handlers shown do not claim to keep them.
- The production writer fence, tenant look-ups, tracing, the evidence ledger and the run-level evaluator.
- Unique-index races in their second form: where the code catches a unique violation and reads the winner's row, the model rolls the transaction back.
- Conversation columns that are copied through: person, contact address, subject, intelligence, and the cancellation of follow-up tasks.
- `updateIntelligenceIfSourceCurrent`, follow-ups and meeting proposals: one guarded update each.
- The in-memory poller of graph runs and the interval timers: heartbeats and sweeps may happen at any moment in the model.
- Listing of checkpoints and serialisation of their payloads; pending writes are returned as a table, not in the order of task and index.
- White space, fractions and exponents in the JSON parser: the canonical text contains none. Sparse arrays and objects with behaviour of their own (dates, say) are no JSON values.
- Which of several unsupported values a canonical text refuses first: only that it is refused.
- Unicode: trimming and lower-casing of recipient addresses cover ASCII; `localeCompare` on ids and addresses is the order of code units.
- Non-finite confidences in a recipient snapshot compare as equal in the model.
- Learning of e-mail patterns after a verification pass, the pause between batches of people, and passes in which the verifier throws (they store nothing).
- Operators who pause or resume queues by hand while a bootstrap attempt runs; the fence key can only be taken by a rival while it is free.
- KPI sums, dashboards, CSV, agents, billing, meetings, scrapers, seed scripts and the web application: thin or single-branch.
- ReserveForDispatch: models replies only; the sequence stop and recipient cool-down of first-touch outreach are not modelled, and the reply of another conversation of the same provider thread is not checked against that conversation's messages.
- RecordInboundGmailMessage: the integration ownership check and the organization lock are taken as given.
- PauseProductionBootstrapQueues: the eight job counts of a snapshot are reduced to the active one, the only one the code looks at here.
- CircuitBreakers.OneProbeAtMost: for a threshold of at least one and a nonnegative window, as the defaults are.
