# EgressFox in Dafny

A Dafny model of the parts of EgressFox that decide which endpoints are probed, selected and published, and of the
crash protocols that make those decisions durable. Code that computes a value is a function with lemmas about it. Code
that updates state is a class or a method whose contract ties it to such a function. Protocols with crashes or with
several goroutines are step machines, and their properties are invariants of every run.

| part | files | subject |
|---|---|---|
| Probe context | `ProbeContext`, `ProbeAdmission`, `ProbeReservation`, `ProbeRuns`, `ProbeRounds`, `ProbeState` | the bounded cohort that several Gateways share, reservations, uncertain writes, rounds |
| Cadence | `Cadence`, `Policy` | the maintenance cadence and the requeue jitter in 64-bit arithmetic |
| Selection | `Sorting`, `Selection`, `SelectionProofs`, `SelectionHysteresis`, `SelectionMethods` | one adaptive decision |
| Replay | `Replay`, `ReplayProofs`, `ReplayConvergence` | runs in which each decision's state feeds the next |
| File publisher | `FilePublisher`, `FilePublisherMethods` | journal, rename and receipt with crashes and failures at every effect |
| Reconciliation | `DecisionStore`, `Planning`, `Reconcile` | stage, publish, read back, commit and recover |
| Gateway runs | `GatewayRun` | the end of a Gateway run: what a reconciliation's report does to the shared probe context |
| Identity | `Encoding`, `Configuration`, `Identity`, `IdentityMethods` | the canonical encodings behind endpoint identity |
| Inventory | `Inventory`, `InventoryMethods` | deduplication and provenance as facts and their normal form |
| Scheduler | `Scheduler`, `SchedulerProofs` | workers, queue, semaphores and cancellation in every interleaving |
| Undisturbed runs | `Undisturbed` | what the three protocols achieve when nothing fails |
| Evidence | `Retention`, `Summary` | what the observation table keeps, and the summaries read from it |

Conventions. Times are nanoseconds since the zero time. A digest is either its input or an injective function
parameter. Reconciliation sees its publisher as a single register that carries the old or the wanted receipt and
answers reads with it, as the contracts of the file publisher's `Publish` and `CurrentReceipt` say; a failed
publication may or may not have taken effect, and may or may not admit that. The Wilson bound is a function parameter
into parts per million. A context name, an endpoint ID, a receipt and a UID are opaque strings.

Four promises do not hold as stated; each has its exact condition.

- A granted reservation can lose a selected endpoint when one endpoint ID has two revisions, one selected and one
  rejected in the same decision. `SelectedRevisionForgotten` shows it; `CommitKeepsSelectionIff` and
  `HoldKeepsAttemptIff` say exactly when nothing reserved is lost, read off the state before the commit.
- The file publisher can end in a permanent ownership conflict when it dies or fails inside its own rollback.
  `StepKeeps` says exactly which steps lose the live pair and `RecoveryYieldsLiveIff` that recovery yields it after a
  run if and only if the run has no such step. `CrashInRollback` gives a harmful run that every publication can take,
  and `CrashesAreSafe` covers every run in which nothing fails between the target rename and the journal removal.
- A report of no publication does not always mean that nothing was written. The file publisher's errors never admit a
  write, and `FailedAfterWriting` is a run in which it fails with the new pair owned. `Faithful` says exactly when the
  output is unchanged after such a report: unless `DeniedWrite`, a failed publication that took effect over a
  different output and was not admitted.
- The cadence keeps its documented promise exactly when the 30-second floor does not raise it (`CadenceKeepsPromise`).

`dafny verify dfyconfig.toml` checks the whole project.

## Model

| member | source | states |
|---|---|---|
| ProbeAdmission.AdmitKeeps | internal/operator/pipeline.go:1017-1070 | one admission keeps the cohort duplicate-free and within capacity, displaces no protected member and leaves the protected set as it was |
| ProbeAdmission.AdmitAllKeeps | internal/operator/pipeline.go:907-954 | the same for a whole list of admissions |
| ProbeAdmission.AdmitFindsSlot | internal/operator/pipeline.go:1033-1057 | pigeonhole: when all that must be kept together fits the capacity, an endpoint of it always finds a slot |
| ProbeAdmission.AdmitAllFindsSlots | internal/operator/pipeline.go:1033-1057 | after admitting a reservation every reserved and protected endpoint is a member |
| ProbeAdmission.AdmitAllTrims | internal/operator/pipeline.go:1033-1070 | admissions change demand only by dropping evicted endpoints that were rejected, from every Gateway alike |
| ProbeReservation.GrantFits | internal/operator/pipeline.go:811-861 | a granted reservation accounts for everything that may have to be maintained together |
| ProbeReservation.CommitHonours | internal/operator/pipeline.go:907-930 | a commit keeps the cohort bounded and protected members in place, and admits every reserved endpoint that is not dropped as rejected |
| ProbeReservation.CommitDemands | internal/operator/pipeline.go:907-930 | after a commit the Gateway's demand is the reserved selection; the others lose nothing but dropped endpoints |
| ProbeReservation.HoldHonours | internal/operator/pipeline.go:932-954 | a hold keeps the previous and the attempted selection maintained side by side |
| ProbeReservation.HoldDemands | internal/operator/pipeline.go:932-954 | after a hold the demand is the previous selection with the attempt and its receipt beside it |
| ProbeReservation.ReleaseRestores | internal/operator/pipeline.go:996-1011 | a failure before any write restores every demand exactly and moves no cohort member |
| ProbeReservation.RefusalChangesVerdictsOnly | internal/operator/pipeline.go:811-861 | a reservation is granted exactly when no write is unresolved and the union fits, and a refusal changes verdicts only |
| ProbeReservation.MaintainedPlanFits | internal/operator/pipeline.go:834-851 | a selection inside the cohort is never refused when no write of the Gateway is unresolved and no other reservation is open |
| ProbeReservation.DropsNoneIff | internal/operator/pipeline.go:1033-1070 | a list of admissions drops none of a set exactly when none of it is among the first rejected members that must yield |
| ProbeReservation.CommitKeepsSelectionIff | internal/operator/pipeline.go:907-930 | a published selection is kept in full, as demand and in the cohort, exactly under that condition |
| ProbeReservation.HoldKeepsAttemptIff | internal/operator/pipeline.go:932-954 | the same boundary for a held attempt |
| ProbeReservation.OneRevisionPerId | internal/operator/pipeline.go:778-789 | the condition holds whenever no selected endpoint is also rejected |
| ProbeReservation.SelectedRevisionForgotten | internal/operator/pipeline.go:778-789 | two revisions of one ID: a granted reservation whose commit evicts and forgets a selected endpoint |
| ProbeRuns.EventKeeps | internal/operator/pipeline.go:597-1070 | every event of a Gateway run or a round keeps the invariant of the shared context |
| ProbeRuns.EveryRun | internal/operator/pipeline.go:597-1070 | over every run the cohort is duplicate-free and within capacity; a claimed endpoint is a member exactly when it is not departed, that is gone from the inventory and not admitted since; and demand is what the real output or the unresolved attempt carries, less only what that selection itself lost while rejected |
| ProbeRuns.ClaimPersists | internal/operator/pipeline.go:744-1070 | a maintained claim stays claimed and maintained until it is rejected, departs, its Gateway publishes or resolves to a selection without it, or its Gateway leaves or expires |
| ProbeRuns.MemberIsMaintained | internal/operator/pipeline.go:597-651 | every compatible cohort member is in the maintenance list of the next round |
| ProbeRuns.ClaimIsProbed | internal/operator/pipeline.go:597-651 | a claimed endpoint is probed in every later round until it is released |
| ProbeRuns.UnresolvedBlocks | internal/operator/pipeline.go:811-833 | an unresolved write blocks every further reservation of its Gateway |
| ProbeRuns.UnresolvedPersists | internal/operator/pipeline.go:932-994 | a write stays unresolved, with its receipt, until a read settles it or its Gateway leaves |
| ProbeRuns.SettledIsLive | internal/operator/pipeline.go:961-994 | after a truthful read the attempt is settled and the demand is what the actual output carries, less only what that selection lost while rejected |
| ProbeRuns.AttemptIsTried | internal/operator/pipeline.go:961-974 | a read looks for a receipt exactly when a write is unresolved, and for the receipt of that write |
| ProbeRuns.StaleReadIgnored | internal/operator/pipeline.go:961-994 | a read for an older attempt changes nothing |
| ProbeRounds.RoundWithinBudget | internal/operator/pipeline.go:597-651 | a round of a bounded cohort has at most the budgeted number of jobs |
| ProbeRounds.EveryRoundWithinBudget | internal/operator/pipeline.go:540-553 | every round of every run is within its budget |
| ProbeRounds.ProtectedLast | internal/operator/pipeline.go:597-651 | protected members are probed last in a round |
| ProbeRounds.RoundAdvances | internal/operator/pipeline.go:1080-1097 | one round reaches a given record or moves the cursor at least the minimum towards it |
| ProbeRounds.EveryEndpointIsProbed | internal/operator/pipeline.go:1080-1097 | with a fixed inventory of n records any ceil(n/2) consecutive unabandoned rounds probe every compatible endpoint |
| ProbeRounds.AbandonOnlyCurrent | internal/operator/pipeline.go:698-704 | abandoning rewinds the current round and never a newer one |
| ProbeStates.NextProbeBatch | internal/operator/pipeline.go:1080-1097 | the circular scan loop gives the batch and cursor of its specification |
| ProbeStates.CompatibleRecords | internal/operator/pipeline.go:597-651 | the index built in a loop holds the last compatible record of every ID |
| ProbeStates.RepeatJobs | internal/operator/pipeline.go:597-651 | every explored record appears once per required sample |
| ProbeStates.ProbeState.IsProtected | internal/operator/pipeline.go:1017-1031 | the loop over demands decides protection |
| ProbeStates.ProbeState.Forget | internal/operator/pipeline.go:1059-1070 | the endpoint leaves every Gateway's selection and attempt, nothing else changes |
| ProbeStates.ProbeState.Admit | internal/operator/pipeline.go:1033-1057 | the in-place admission refines the value operation |
| ProbeStates.ProbeState.AdmitAll | internal/operator/pipeline.go:907-954 | a loop of admissions refines the value operation |
| ProbeStates.ProbeState.ObserveVerdicts | internal/operator/pipeline.go:778-789 | only cohort members that the decision failed are rejected afterwards |
| ProbeStates.ProbeState.NeededFor | internal/operator/pipeline.go:834-851 | the loop collects exactly what a reservation has to fit next to |
| ProbeStates.ProbeState.ReserveSelection | internal/operator/pipeline.go:811-861 | the in-place reservation, granted or refused, refines the value operation |
| ProbeStates.ProbeState.CommitSelection | internal/operator/pipeline.go:907-930 | the in-place commit refines the value operation |
| ProbeStates.ProbeState.HoldUncertain | internal/operator/pipeline.go:932-954 | the in-place hold refines the value operation |
| ProbeStates.ProbeState.FindAttempt | internal/operator/pipeline.go:961-974 | the receipt and number of the unresolved attempt, if the Gateway has one and no reservation is pending |
| ProbeStates.ProbeState.ResolveUncertain | internal/operator/pipeline.go:961-994 | a whole resolution: no unresolved write or an unreadable output changes nothing, otherwise the attempt that was looked up is settled by comparing receipts |
| ProbeStates.ProbeState.SettleRead | internal/operator/pipeline.go:981-994 | the second half of the resolution, under the lock again, refines the value operation |
| ProbeStates.ProbeState.ReleaseSelection | internal/operator/pipeline.go:996-1011 | the in-place rollback refines the value operation |
| ProbeStates.ProbeState.TouchHere | internal/operator/pipeline.go:744-766 | the Gateway's demand is refreshed and silent demands expire |
| ProbeStates.ProbeState.RecordProbeResults | internal/operator/pipeline.go:725-742 | answered endpoints are admitted as unselected |
| ProbeStates.ProbeState.AbandonRound | internal/operator/pipeline.go:698-704 | the in-place rewind refines the value operation |
| ProbeStates.ProbeState.CompleteRound | internal/operator/pipeline.go:706-712 | only the current round's overload is recorded |
| ProbeStates.ProbeState.BudgetedJobs | internal/operator/pipeline.go:597-651 | the round built in place refines the value operation |
| ProbeStates.Pipeline.TouchDemand | internal/operator/pipeline.go:744-766 | the demand stays alive in its own context and is released in every other one |
| Cadence.UnflooredCadenceExact | internal/operator/pipeline.go:520-527 | no 64-bit product wraps for an admitted policy and the quotient is the floor |
| Cadence.RequeueLateness | internal/controller/proxypool_controller.go:269-292 | a requeue is at most ten percent later than its base, for every UID |
| Cadence.GatewayRequeueBound | internal/controller/egressgateway_controller.go:182-184 | the latest requeue of a Gateway, whatever its refresh interval and UID |
| Cadence.CadenceKeepsPromise | internal/operator/pipeline.go:511-527 | cadence within Freshness and room for all maximally late requeues, if and only if the floor did not raise it |
| Cadence.LatestRequeueMisses | internal/operator/pipeline.go:520-527 | a cadence raised by the floor overruns the window |
| Cadence.DefaultCadence | internal/operator/pipeline.go:507-538 | the operator's own policy has a five-minute cadence and keeps the promise |
| SelectionProofs.SelectIgnoresOrder | internal/selection/selection.go:259-380 | the result does not depend on candidate order |
| SelectionProofs.ChooseSpec | internal/selection/selection.go:311-356 | the chosen entries are distinct, eligible and exactly min(TopN, eligible) many |
| SelectionProofs.SelectsExactly | internal/selection/selection.go:259-380 | exactly min(TopN, eligible) distinct eligible connections are selected, and degraded says whether they fall short |
| SelectionProofs.NextIsValid | internal/selection/selection.go:134-183 | the next state validates, is dated now, has no later member and no member in cooldown |
| SelectionProofs.NextDisjoint | internal/selection/selection.go:311-337 | no selected connection is in cooldown afterwards |
| SelectionProofs.PunishSpec | internal/selection/selection.go:311-337 | exactly the lost and failing members get a new cooldown; other entries stay |
| SelectionProofs.UpsertSpec | internal/selection/selection.go:573-581 | one cooldown per connection: the given one for its own, the old ones for the rest |
| SelectionProofs.SortRankedSpec | internal/selection/selection.go:442-456 | sorting keeps the entries and makes the order keys ascend |
| SelectionHysteresis.RiskCostIsCeiling | internal/selection/selection.go:510-516 | for every admissible duration the cost is the exact ceiling and nothing wraps |
| SelectionHysteresis.ImprovesAsymmetric | internal/selection/selection.go:484-495 | two entries never improve on each other |
| SelectionHysteresis.ImprovesTransitive | internal/selection/selection.go:484-495 | improvement by the required margin is transitive |
| SelectionHysteresis.WorstSpec | internal/selection/selection.go:458-482 | the replaced slot is outside its residence and none such is costlier |
| SelectionHysteresis.StepReplaces | internal/selection/selection.go:458-482 | one challenger changes at most one slot, outside its residence and only by the margin |
| SelectionHysteresis.PassReplaces | internal/selection/selection.go:458-482 | after a whole pass a slot has its entry or a challenger that beats it by the margin |
| SelectionHysteresis.PlacedStays | internal/selection/selection.go:458-482 | a challenger that a pass places in a slot is the one there when the pass ends: no slot is replaced twice |
| SelectionHysteresis.MemberLeavesOnlyBeaten | internal/selection/selection.go:311-356 | a member leaves only when ineligible, or past its residence and beaten by a connection that stays selected |
| SelectionMethods.UpsertCooldown | internal/selection/selection.go:573-581 | the in-place update refines its specification |
| SelectionMethods.WorstSlot | internal/selection/selection.go:458-482 | the scan finds the slot of its specification |
| SelectionMethods.OptimizeSelected | internal/selection/selection.go:458-482 | the in-place pass refines its specification |
| SelectionMethods.EvaluateAll | internal/selection/selection.go:295-308 | one loop explains every candidate and collects the eligible ones |
| SelectionMethods.KeepPresent | internal/selection/selection.go:311-324 | the loop keeps present and unreleased cooldowns |
| SelectionMethods.KeepMembers | internal/selection/selection.go:325-337 | the loop keeps eligible members and punishes failing ones |
| SelectionMethods.FillUp | internal/selection/selection.go:344-349 | the loop fills up to TopN from the ranking |
| SelectionMethods.SelectEndpoints | internal/selection/selection.go:259-380 | the whole imperative selection, errors included, equals its specification |
| Replay.MeasureTotals | internal/selection/replay.go:49-78 | the accumulated report is the total over the run's decisions |
| Replay.RunStrategy | internal/selection/replay.go:49-78 | the loop that feeds each state back in measures the specified run |
| Replay.Compare | internal/selection/replay.go:37-85 | one report per strategy, or the first error |
| ReplayProofs.DecisionsReplay | internal/selection/replay.go:49-78 | the fold is a run in which every frame selects from the previous state |
| ReplayProofs.ReplayInvariant | internal/selection/replay.go:49-78 | every reachable state validates, has at most TopN members and keeps members and cooldowns disjoint |
| ReplayProofs.ReplayDeparture | internal/selection/selection.go:325-356 | over a run a member leaves only when ineligible, or past residence and beaten by the margin |
| ReplayProofs.DropStartsCooldown | internal/selection/selection.go:325-337 | a member dropped for its failures is not selected and starts a cooldown |
| ReplayProofs.CooldownStays | internal/selection/selection.go:311-324 | the cooldown of a present connection stays until it has recovered |
| ReplayProofs.DroppedStaysOut | internal/selection/selection.go:423-432 | a dropped member that stays present is not selected before its cooldown is over and it succeeded often enough in a row |
| ReplayConvergence.FrozenStep | internal/selection/selection.go:354-356 | with frozen evidence a full eligible set stays full, and a changed decision strictly lowers its total cost |
| ReplayConvergence.FrozenRunSettles | internal/selection/replay.go:49-78 | such a run changes at most as often as the initial total cost allows |
| FilePublisher.StepKeeps | internal/publish/file.go:66-279 | a step keeps the directory recoverable to the live pair if and only if it is not one of the named harmful steps |
| FilePublisher.RecoveryYieldsLive | internal/publish/file.go:169-213 | after any operations, failures and crashes without a harmful step, also of recovery itself, recovery yields exactly the live pair |
| FilePublisher.CrashesAreSafe | internal/publish/file.go:66-143 | crashes anywhere, and failures outside the stretch after the rename, never lose the live pair |
| FilePublisher.PublicationIsAtomic | internal/publish/file.go:66-143 | recovery yields the new pair if the target was renamed and not rolled back, and the old pair or nothing otherwise |
| FilePublisher.RecoveryCompletes | internal/publish/file.go:169-192 | an undisturbed recovery ends with the live pair owned and no temporaries |
| FilePublisher.ConflictIsFinal | internal/publish/file.go:194-213 | an ownership conflict is never left again by any run |
| FilePublisher.HarmIsFinal | internal/publish/file.go:256-279 | a harmful step leaves such a conflict |
| FilePublisher.HarmfulRunConflicts | internal/publish/file.go:194-279 | a run with a harmful step ends in an ownership conflict |
| FilePublisher.RecoveryYieldsLiveIff | internal/publish/file.go:66-279 | over every run that starts sound and ends down, recovery yields exactly the live pair if and only if no step was harmful |
| FilePublisher.CrashInRollback | internal/publish/file.go:256-279 | a crash inside the rollback, after a failed sync of the new receipt, always ends in a conflict |
| FilePublisher.FailedAfterWriting | internal/publish/file.go:136-143 | a failed sync after the journal is gone: the publication fails with the new pair owned |
| FilePublisherMethods.Publisher.Recover | internal/publish/file.go:169-192 | every execution of recovery, whatever fails, the scan for temporaries included, is a run of the machine |
| FilePublisherMethods.Publisher.Undo | internal/publish/file.go:256-279 | every execution of the rollback is a run of the machine and reports failure |
| FilePublisherMethods.Publisher.Offer | internal/publish/file.go:77-143 | an artifact over an owned output: a run of the machine that leaves the old or the wanted pair, or finds the content already there |
| FilePublisherMethods.Publisher.Publish | internal/publish/file.go:66-143 | every execution is a run of the machine, keeps the directory sound unless harmful, and a reported success has exactly the new pair in place with nothing pending |
| FilePublisherMethods.Publisher.CurrentReceipt | internal/publish/file.go:46-64 | reading recovers, changes no live pair and answers with the live pair's receipt |
| DecisionStore.StepKeeps | internal/state/sqlite.go:404-487 | every step keeps the live output's latest checkpoint in a slot unless it has expired |
| DecisionStore.RecoveryIsFaithful | internal/state/sqlite.go:448-487 | after any run, recovery answers only with a state staged for the live receipt, and with the one staged last unless it has expired |
| DecisionStore.PublishedWasStaged | internal/reconcile/reconcile.go:212-259 | nothing is live that was not staged first |
| DecisionStore.RecoverTwice | internal/state/sqlite.go:448-487 | recovery is idempotent |
| DecisionStore.CompletedRun | internal/reconcile/reconcile.go:245-258 | a completed run leaves its own checkpoint committed and nothing pending |
| DecisionStore.LostCommit | internal/reconcile/reconcile.go:245-258 | when the commit is lost, the next recovery still answers with the written run's state |
| DecisionStore.StagingUnrecovered | internal/reconcile/reconcile.go:132-139 | staging over an unrecovered checkpoint of the live output would lose its decision |
| Planning.LoadCandidates | internal/reconcile/reconcile.go:182-202 | the loop loads evidence for every record, withholds it outside the limit and stops at the first error |
| Planning.PlanDecision | internal/reconcile/reconcile.go:182-208 | the plan equals selection over those candidates |
| Planning.ConstrainedSelectsMaintained | internal/reconcile/reconcile.go:180-208 | a constrained plan selects only records inside its limit |
| Planning.ConstrainedPlanIsGranted | internal/operator/pipeline.go:886-901 | after a refusal, a plan limited to the cohort is always granted its reservation, in sequential runs without an unresolved write |
| Planning.FirstSelectionIsGranted | internal/operator/pipeline.go:553-557 | with the bounded TopN the first selection in a context is always granted |
| Reconcile.Store.StageDecision | internal/state/sqlite.go:404-422 | the pending slot of the scope is replaced, other scopes and the committed slot stay |
| Reconcile.Store.CommitDecision | internal/state/sqlite.go:424-446 | the pending checkpoint is promoted only when it names the given receipt |
| Reconcile.Store.RecoverDecision | internal/state/sqlite.go:448-487 | the pending checkpoint is promoted or discarded and the answer describes the given receipt, for this scope only |
| Reconcile.Store.ExpireCheckpoints | internal/state/sqlite.go:276-280 | old rows of every scope disappear, younger ones stay |
| Reconcile.Reconciler.Apply | internal/reconcile/reconcile.go:210-259 | every execution is a run of the machine; the report says truthfully what the output carries or may carry, a report of no publication means an unchanged output exactly when no write was denied, and success means a committed checkpoint of the live output |
| Reconcile.Reconciler.Deliver | internal/reconcile/reconcile.go:236-258 | the same from publication on |
| Reconcile.Reconciler.Decide | internal/reconcile/reconcile.go:140-165 | a refused decision is planned once more inside the limit; a decision goes on only when granted |
| Reconcile.Reconciler.Reconcile | internal/reconcile/reconcile.go:122-172 | a whole reconciliation keeps the store's invariant, touches no other scope, and its report says what the output carries or may carry, with the same exact condition for no publication |
| GatewayRuns.SwitchIsSound | internal/operator/pipeline.go:354-373 | the event that a granted run ends with is possible, closes the reservation, and leaves the context in line with the output if and only if no write over a known output was denied |
| GatewayRuns.RefusedRunIsQuiet | internal/operator/pipeline.go:354-358 | a run without a reservation leaves the output alone and tells the context verdicts at most |
| GatewayRuns.ReadIsTruthful | internal/operator/pipeline.go:863-884 | comparing the output's receipt with that of the unresolved attempt is a truthful read, and keeps context and output in line |
| GatewayRuns.FinishRun | internal/operator/pipeline.go:354-373 | the switch in place commits, holds, releases or records verdicts as the report says |
| Undisturbed.PublicationSucceeds | internal/publish/file.go:66-143 | from any recoverable directory, recovery and publication without a failure end with exactly the new pair owned, and no step is harmful |
| Undisturbed.ReconciliationSucceeds | internal/reconcile/reconcile.go:132-258 | without a failure a reconciliation commits its checkpoint for the output it published, whatever was there before |
| Undisturbed.PublishedIsMaintained | internal/operator/pipeline.go:334-370 | a granted and published decision that rejects none of its own endpoints becomes the Gateway's demand and is maintained in full |
| Encoding.FieldPrefix | internal/endpoint/identity.go:260-291 | one field can be read back from the front of any bytes |
| Encoding.EncodeInjective | internal/endpoint/identity.go:260-291 | a concatenation of untagged fields determines them when each kind follows from the fields before it |
| Encoding.DelimitedAppends | internal/endpoint/identity.go:195-257 | self-delimiting layouts compose |
| Configurations.OriginalConstructorsBuild | internal/endpoint/configuration.go:353-422 | what the original constructors accept is well built |
| Configurations.ExtendedConstructorsBuild | internal/endpoint/advanced.go:393-443 | what the extended constructors accept is well built |
| Configurations.EquivalentIsEqual | internal/endpoint/configuration.go:451-458 | equivalence of built configurations is equality |
| Configurations.OneRepresentation | internal/endpoint/advanced.go:412-422 | built configurations that agree in all accessors are one value: an old connection never has two representations |
| Identities.DomainInjective | internal/endpoint/identity.go:175-193 | version and purpose are separated by the domain |
| Identities.EncodingIsExact | internal/endpoint/identity.go:175-258 | two built configurations share an encoding if and only if they agree in everything it covers, across all versions and the port tail |
| Identities.PrivateIsExact | internal/endpoint/identity.go:175-258 | private encodings are equal if and only if the configurations are equivalent |
| Identities.LogicalIsExact | internal/endpoint/identity.go:175-258 | logical encodings are equal if and only if the configurations differ at most in credentials, Reality short ID or obfuscation password |
| Identities.DomainsAreSeparate | internal/endpoint/identity.go:175-193 | no logical encoding equals a private one |
| Identities.SameEndpointIff | internal/endpoint/identity.go:92-173 | IDs are equal exactly when the logical parts are |
| Identities.IdentityIsExact | internal/endpoint/identity.go:66-173 | identities are equal exactly for equivalent configurations |
| IdentityMethods.CanonicalEncoder.WriteString | internal/endpoint/identity.go:264-269 | one length-prefixed string is appended |
| IdentityMethods.CanonicalEncoder.WriteCounted | internal/endpoint/identity.go:215-218 | a count and that many strings are appended |
| IdentityMethods.CanonicalEncoder.WriteThird | internal/endpoint/identity.go:210-240 | the version-three part is appended |
| IdentityMethods.CanonicalConfiguration | internal/endpoint/identity.go:175-258 | the buffer written step by step is the canonical encoding |
| Inventories.InventoryUnique | internal/endpoint/inventory.go:113-141 | every set of facts has one normal inventory |
| Inventories.DedupDependsOnFacts | internal/endpoint/inventory.go:113-141 | the result, errors included, depends on the facts alone |
| Inventories.DedupIgnoresOrder | internal/endpoint/inventory.go:113-160 | permuting the records changes nothing |
| Inventories.DedupIdempotent | internal/endpoint/inventory.go:113-141 | deduplicating a deduplicated inventory gives it back |
| Inventories.DedupHomomorphic | internal/source/snapshot.go:51-61 | deduplicating per source and then across sources equals one flat deduplication |
| Inventories.PartConflicts | internal/source/parse.go:135-139 | a conflict inside one source is a conflict of the whole |
| InventoryMethods.NormalizeAliases | internal/endpoint/provenance.go:147-173 | accepted aliases become their strictly sorted set; one alias that is empty, too long in bytes, not UTF-8 or holds a control or format character rejects all |
| InventoryMethods.MapKeyInjective | internal/endpoint/provenance.go:121-123 | the joined key names one source record |
| InventoryMethods.MergeProvenance | internal/endpoint/provenance.go:175-201 | the exact union of relationships and aliases, strictly sorted |
| InventoryMethods.NewRecord | internal/endpoint/inventory.go:16-30 | a record with normal provenance and the same facts, or a rejection |
| InventoryMethods.MergeMatchingRecords | internal/endpoint/inventory.go:143-149 | the facts of both records, unless their configurations differ |
| InventoryMethods.Deduplicate | internal/endpoint/inventory.go:113-141 | the normal form of the facts, or the first conflicting connection, or an invalid record |
| InventoryMethods.CombineSnapshots | internal/source/snapshot.go:51-61 | the snapshots together are deduplicated as one list |
| InventoryMethods.IdentitiesNeverConflict | internal/endpoint/inventory.go:143-149 | records that carry their own configuration's identity never conflict |
| SchedulerProofs.StepKeeps | internal/probe/scheduler.go:80-184 | every atomic effect, a counter's increment and the later raise of its peak being two, keeps accounting, limits, peaks and conservation |
| SchedulerProofs.LimitsHold | internal/probe/scheduler.go:80-184 | in every interleaving and for all jobs, one endpoint or one target: what executes is covered by the peak, the peak by the highest value the counter had, and that by the limit; no result is written twice |
| SchedulerProofs.PeakCovers | internal/probe/scheduler.go:126-143 | between an increment and its raise the peak may lag, but what executes is always covered by it |
| SchedulerProofs.BusyAdvances | internal/probe/scheduler.go:116-143 | with the endpoint slot taken before the target slot, some busy worker can always move |
| SchedulerProofs.Progress | internal/probe/scheduler.go:104-168 | no reachable state is stuck before every worker is done |
| SchedulerProofs.RunsEnd | internal/probe/scheduler.go:104-168 | a run is never longer than its measure |
| SchedulerProofs.StepBound | internal/probe/scheduler.go:104-168 | n jobs on k workers take at most 23n + k + 2 steps |
| SchedulerProofs.StuckIsFinished | internal/probe/scheduler.go:146-168 | a run that cannot go on has every result written exactly once, every slot free and every peak equal to the highest value of its counter, cancelled or not |
| Retention.NewestSize | internal/state/sqlite.go:281-299 | exactly the bounded number of newest rows is kept |
| Retention.KeptAbsorbs | internal/state/sqlite.go:281-299 | dropping rows that would not be kept anyway does not change what is kept |
| Retention.LiveCommutes | internal/state/sqlite.go:271-275 | expiry and retention commute |
| Retention.AppendKeeps | internal/state/sqlite.go:235-301 | one append at any clock reading keeps the table equal to what retention keeps of the rows that deletion by age alone would leave |
| Retention.StoredIsKept | internal/state/sqlite.go:235-301 | after any appends, whatever the clock did, the table is the newest rows among the newest of every key, of the rows that deletion by age alone would leave |
| Retention.HeldMeans | internal/state/sqlite.go:271-275 | age alone leaves a row exactly when some arrival of it was followed by no cutoff beyond it |
| Retention.StoredIsNewest | internal/state/sqlite.go:235-301 | with a clock that never goes back, the table is the unexpired newest rows among the newest of every key |
| Retention.StoredIgnoresOrder | internal/state/sqlite.go:248-253 | arrival order and repeated samples do not matter |
| Summaries.StreakMeans | internal/observation/summary.go:64-76 | a streak is the longest suffix with one outcome |
| Summaries.LatestSuccessMeans | internal/observation/summary.go:49-58 | the latest success is the last successful row, and none exists exactly without successes |
| Summaries.SummaryDependsOnWindow | internal/observation/summary.go:31-47 | a summary depends only on the rows in the window |
| Summaries.FilterWindow | internal/observation/summary.go:32-41 | the filter loop, which refuses foreign keys |
| Summaries.CountSuccesses | internal/observation/summary.go:49-58 | successes, their total duration and the latest of them |
| Summaries.CountStreaks | internal/observation/summary.go:64-76 | the single backward pass counts both streaks |
| Summaries.Summarize | internal/observation/summary.go:23-82 | the loops compute the specified summary with its success ratio, latest row and latest success, errors included |
| Summaries.EvidenceStore.AppendRow | internal/state/sqlite.go:235-269 | a committed append at any clock reading keeps the table's meaning; a rolled-back one changes nothing |
| Summaries.EvidenceStore.Load | internal/state/sqlite.go:303-346 | exactly the rows of the key within the bounds, oldest first |
| Summaries.EvidenceStore.SummarizeStored | internal/state/sqlite.go:348-358 | loading a window and summarising equals summarising every stored row of the key |

## Left out

- Kubernetes clients and controllers' conditions, HTTP fetching, DNS, engine processes and health checks: effects with per-branch facts only.
- Subscription parsers and renderers: rendering and validation are a function from a selection to a receipt or a failure.
- SHA-256, base32, JSON and SQL: digests are injective, tables are sets or maps, checkpoint payloads are values, and the payload size limits are not modelled.
- Truly concurrent Gateway runs inside one pending reservation, and the expiry of a whole probe context after its time to live: runs are sequential, as the controller registers them.
- Managed generations, whose current output is what a status records: the publisher of the reconciliation model is a single register.
- Directory and permission checks of the file publisher, unreadable files, and files over the size limits.
- Component constructors of addresses, credentials, transports and port ranges: their validity and length bounds are the predicates `GoodAddress` to `GoodHysteria`.
- Contents of scheduler results and the runner itself: the model counts writes per result.
- ProbeRuns.EveryRun: reads of the output are truthful and receipts identify what they carry; a lying publisher is not modelled.
- Retention.StoredIsNewest: needs a clock that never goes back, because expired rows are deleted for good; `StoredIsKept` has no such condition.
- Summaries.EvidenceStore.AppendRow: one sample ID names one observation, so ignoring a repeated insert loses nothing.
- Planning.ConstrainedPlanIsGranted: needs that no other reservation is open, which sequential runs give.
