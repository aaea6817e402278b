# Verified model of the flowy durable execution runtime

flowy runs agent graphs durably: one sealed aggregate per execution, the
`ExecutionEnvelope`, changed only by commits that are fenced by a lease
incarnation and checked against the expected revision. The aggregate carries a
journal of activities, groups of structured children, durable waits and its
rollover lineage. The code has both the functions that write this aggregate and
an independent validator that says which aggregates may be loaded
(execution_integrity.go:38-52). This project models both sides and proves
exactly when every aggregate of a run passes the validator, together with what
the runtime promises about dispatch, waits, children, capacity, leases, history,
rollover and retention.

`dafny verify dfyconfig.toml` checks everything.

## How the model is built

- **Values.** SHA-256 identities and digests are injective constructors over
  what is hashed (`Digest`, `Seal`); the seal of an envelope is the sealed body,
  which is what makes rollover chains well founded. JSON payloads are maps and
  datatypes. Time is an integer with 0 for the zero time. `uint64` revisions and
  counters keep their bounds, and increments keep their wrap-around.
- **One record, one group, one wait.** `ActivityRecords`/`ActivitySteps`,
  `ChildRecords`/`ChildGroups`/`ChildSteps`/`ChildCapacity`/`ChildLedger` and
  `WaitArbitration` hold the validators, the transitions and their proofs.
  The validators are not inductive as written: a running or unknown record with
  a decision on its last attempt passes the loader, but no step produces one.
  `RecordInv` adds exactly this.
- **The aggregate.** `Envelopes` holds the loader's predicate; `EnvInv` in
  `AggregateInvariant` is its inductive form. Every operation is a function from
  an envelope to a `Step` (`ActivityOps`, `StepOps`, `WaitOps`, `ChildOps`), and
  each has a lemma that its write keeps `EnvInv` and extends the source. One
  write can break it, see below; `CoreInv` is what even that one keeps. `Gates`
  treats what holds only while node code keeps to its own step.
- **The store.** `StoreModel` is the store as a value, `StoreSteps` and
  `StoreRuns` prove it consistent under arbitrary clients, `RolloverChains` and
  `Retention` cover transfers and maintenance. `MemoryStore` is the class with
  maps changed in place, each method proved equal to the value function.
  `Checkpointing` is the checkpointer class over that store.
- **Runs.** `DurableRuns` is the world: any number of sessions over one store;
  a move is a lease operation, an operation of a session, a crash, a rollover or
  retention, and a commit can be rejected, acknowledged, or committed with its
  reply lost. Node code may call through its context at any time; only the run
  loop's own snapshots, steps and arms stop with its terminal
  (runner_execution.go:261-275, durable_runner.go:312-317). A session opens an
  execution only if the validator accepts it, and a session opened for one
  operator decision ends with it. The world records every dispatch of an activity
  and of a child. `DurablePerform.RunKeeps` proves the invariant for all runs,
  `DurableLoads` and `DurableTheorems` draw the conclusions.
- **Answers.** The `*Answers` modules state, apart from the bodies, exactly when
  each operation writes, what the write leaves field by field, what a refused
  call is told, and what the next call then gets.
- **Loops.** Where the source decides something with a loop in map order, a
  method with that loop is proved to decide an order-free predicate.

## Assumptions about the host

- Clock readings that operations stamp without a check are not the zero time.
  `ClockFindings` shows with concrete inputs what goes wrong otherwise, and the
  `...Iff` lemmas give the exact conditions. No monotone clock is assumed: a
  clock that runs backwards only makes the check before a commit refuse.
- A classifier of activity failures returns one of the three classes; the
  source maps anything else to the ambiguous one (activity_retry.go:91-102).

## Where code and documentation disagree

- `ResolveActivity`, `CancelChildren` and `ReturnChildBudget` record a clock
  reading that nothing checks. Under a zero clock they commit an envelope that
  every later load rejects as corrupt. The model follows the code, and
  `ClockFindings` has a concrete input and the exact condition for each.
- The step gate (execution_checkpointer.go:221-264) keeps a run from ending or
  waiting over outstanding work, but nothing keeps node code from preparing new
  work afterwards: `callActivity` and `prepareChildrenLocked` look neither at the
  terminal nor at armed waits, and the context of a node is canceled only when
  the whole run returns (runner_execution.go:24-25). The loader accepts such an
  aggregate. An accepted delivery then raises the activation without a look at
  the work (durable_wait_delivery.go:189-226), and what it commits never loads
  again. `LateFindings` and `LateRuns` show it on one execution,
  `Gates.PrepareGateIff` and `WaitOps.DeliverLoadsIff` give the exact conditions,
  and `DurableTheorems.LoadsIffTimely` states it for whole runs. Everything else
  proved about runs holds with such calls included.

## Model

| member | source | states |
|---|---|---|
| RetrySchedule.BaseDelay | activity_schedule.go:89-102 | the delay lies between the initial and the maximum delay; its value is the promised closed form min(max, initial * multiplier^(attempt-1)) |
| RetrySchedule.ActivityRetryBaseDelay | activity_schedule.go:89-102 | the multiplying loop returns that closed form for every attempt, without int64 overflow and in at most 63 rounds |
| RetrySchedule.BaseDelayMonotone | activity_schedule.go:89-102 | later attempts never wait less |
| RetrySchedule.JitterWidth | activity_schedule.go:104-111 | the split computation equals floor(delay * permille / 1000) and never exceeds the delay |
| RetrySchedule.ChooseActivityRetrySchedule | activity_schedule.go:117-165 | the stepwise chooser is the function ChooseSchedule, for any clock, hint and sampler, a panicking one included |
| RetrySchedule.ChosenScheduleValid | activity_schedule.go:177-234 | what the chooser records passes the validator exactly for a valid policy, 1 <= attempt < MaxAttempts and a usable clock reading |
| RetrySchedule.ChosenDeadline | activity_schedule.go:117-165 | an accepted deadline is the maximum of preparation time plus selected delay and the hint, and the delay lies in the jitter band |
| RetrySchedule.ValidScheduleIsChosen | activity_schedule.go:177-234 | the validator accepts only decisions the chooser can produce for some hint and some sample |
| ActivityRecords.ValidateActivityDecisions | activity_resolution_integrity.go:3-31 | the one pass with a seen set and the previous attempt and revision decides distinct IDs, pairwise order and per-decision validity |
| ActivitySteps.NewRecordValid | activity.go:191-208 | a freshly prepared record satisfies the inductive record invariant |
| ActivitySteps.BeginValidIff | activity.go:185-239 | a started attempt passes the validator exactly when incarnation and start are nonzero and the second clock reading reached the committed deadline |
| ActivitySteps.BeginValid | activity.go:216-233 | starting an attempt keeps the record invariant and only extends the record |
| ActivitySteps.AbandonValid | activity.go:270-279 | marking an abandoned attempt unknown keeps the record invariant and only extends the record |
| ActivitySteps.CompleteValidIff | activity.go:368-375 | a live, simulated or reconciled completion is persistable exactly when its clock reading is nonzero (reconciled: always), and then keeps the invariant |
| ActivitySteps.FailValidIff | activity_retry.go:119-152 | a recorded failure is persistable exactly when its clock reading is usable (ambiguous: always), and then keeps the invariant |
| ActivitySteps.ResolveValidIff | activity_resolution.go:152-229 | an unchecked operator decision yields a record the loader accepts exactly when the clock is not the zero time, and then extends the record |
| ActivitySteps.RecordExtendsTransitive | activity_attempt_integrity.go:3-25 | records of one run only grow: attempts change only by leaving the running state, decisions are appended, settled records are frozen |
| ClockFindings.BackwardClockIsRejected | activity.go:186-229 | concrete input: a call whose second clock reading lies before the first is rejected by the check before the commit |
| ClockFindings.ZeroClockPublishesCorruptRecord | activity_resolution.go:191-229 | concrete input: a resolution under a zero clock publishes a record that no load accepts |
| ClockFindings.CancellationValidIff | child_cancel.go:87-129 | a written cancellation is a group the loader accepts exactly when the unchecked clock reading is not zero |
| ClockFindings.CancelLoadsIff | child_cancel.go:87-129 | the envelope a cancellation request publishes passes the loader if and only if the clock is not the zero time |
| ClockFindings.ZeroClockPublishesCorruptCancellation | child_cancel.go:87-129 | concrete input: a cancellation request under a zero clock publishes a group that no load accepts |
| ClockFindings.ReturnValidIff | child_budget_return.go:49-97 | a written budget return is a group the loader accepts exactly when the unchecked clock reading is not zero |
| ClockFindings.ReturnLoadsIff | child_budget_return.go:49-97 | the envelope a budget return publishes passes the loader if and only if the clock is not the zero time |
| ClockFindings.ZeroClockPublishesCorruptReturn | child_budget_return.go:49-97 | concrete input: a budget return under a zero clock publishes a group that no load accepts |
| ActivityOps.PrepareSound | activity.go:191-215 | the first commit of a call keeps the aggregate invariant and extends the source envelope |
| ActivityOps.BeginSound | activity.go:216-239 | so does the commit that starts an attempt |
| ActivityOps.AbandonSound | activity.go:256-279 | so does the takeover of an attempt another incarnation left running |
| ActivityOps.FinishSound | activity.go:339-388 | so does recording the outcome of a dispatch or of a reconciliation |
| ActivityOps.ResolveSound | activity_resolution.go:54-150 | so does an operator decision, though nothing validates it before the commit |
| ActivityOps.ResolveLoadsIff | activity_resolution.go:191-229 | the envelope a resolution publishes passes the loader if and only if the clock is not the zero time |
| WaitArbitration.ValidateWaitDecisions | durable_wait_arbitration.go:194-221 | the pass over the ledger in map order with a seen set decides the order-free ledger predicate |
| WaitArbitration.PlannedWaitValid | durable_wait_contract.go:137-151 | a planned wait is valid at the revision that arms it |
| WaitArbitration.ValidWaitLater | durable_wait_arbitration.go:168-192 | a valid wait is valid at every later revision |
| WaitArbitration.DeliveryPreserves | durable_wait_arbitration.go:31-78 | a delivery keeps the wait valid, extends its ledger by its own decision, and a replay changes nothing |
| WaitArbitration.CancellationPreserves | durable_wait_cancellation.go:75-77 | cancellation keeps the wait valid and its ledger |
| WaitArbitration.ArbitrationVerdict | durable_wait_arbitration.go:80-91 | a valid wait has a fate unless armed; the accepted decision is the winner, unmatched events precede the fate, lost and refused ones follow it, no timer is early |
| WaitArbitration.RedeliveryReplays | durable_wait_arbitration.go:31-78 | a delivery ID presented again at any later revision returns its recorded decision, or is a conflict if kind, correlation or payload differ |
| WaitOps.FindWaitGeneration | durable_wait_delivery.go:108-118 | the search in map order returns the one wait a generation names, or the right error |
| WaitOps.GenerationNames | durable_wait_contract.go:123-129 | generations within an execution are distinct |
| WaitOps.ArmSound | durable_wait_registration.go:32-71 | arming keeps the aggregate invariant and happens only with nothing outstanding |
| WaitOps.DeliverSound | durable_wait_delivery.go:41-106 | a delivery, with its continuation if accepted, keeps the aggregate invariant unless it raises the activation over outstanding work; then it keeps all of it but the cursor addressing that work |
| WaitOps.DeliverLoadsIff | durable_wait_delivery.go:189-226 | over any envelope the loader accepts, what a deciding delivery commits passes the loader if and only if nothing was outstanding |
| WaitOps.CancelSound | durable_wait_cancellation.go:34-96 | cancellation with its terminal keeps the aggregate invariant |
| WaitOps.ContinuationWithWinner | durable_wait_delivery.go:189-226 | a delivery moves the cursor exactly when it decides its wait, in the commit that records it as winner; otherwise only the ledger changes |
| WaitOps.ContinuationOnce | durable_wait_delivery.go:84-91 | after the deciding commit no delivery to that generation moves the cursor again |
| ChildRecords.FindChild | child_budget_return.go:99-106 | the position found carries the ID, and none is found only if no child carries it |
| ChildRecords.PlanChildGroup | child_contract.go:95-166 | the planning loop succeeds exactly on plannable input (labels, distinct nonempty IDs, claims that together fit) and returns the sorted planned group |
| ChildRecords.AllocateCounters | child_contract.go:189-198 | allocation in map order succeeds exactly when every claim is named, nonnegative and affordable, and leaves the difference |
| ChildRecords.SortIsOrdered | child_contract.go:130-130 | sorting keeps the specs and their claims and puts distinct IDs in strict order |
| ChildGroups.PlannedGroupValid | child_persistence.go:147-170 | a planned group passes the group validator |
| ChildGroups.ComputeChildBudgetReturn | child_budget.go:6-28 | the two loops return allocation minus use, exactly when the claim covers the same counters within their allocation |
| ChildSteps.GroupExtendsTransitive | child_state.go:3-40 | groups of one run only grow: a changed child was unsettled and gets a larger revision, launched stays launched, returns and joins are permanent |
| ChildSteps.ChildRevisionsAreFaithful | child_state.go:3-40 | equal child revisions mean equal records, and settled children never change |
| ChildSteps.BeginPreserves | child_launch.go:246-291 | queueing and starting a child keep the group valid and raise only its revision |
| ChildSteps.FinishPreserves | child_launch.go:293-338 | so does finishing a child, whatever it is recorded as |
| ChildSteps.RecoverPreserves | child_launch.go:207-244 | so does the recovery after a takeover, which leaves no child running |
| ChildSteps.RequestChildCancellation | child_cancel.go:87-129 | the loop over the children equals the pointwise cancellation, and refuses exactly on revision overflow |
| ChildSteps.CancelPreserves | child_cancel.go:149-176 | cancellation keeps the group valid and leaves no child launchable |
| ChildSteps.ConfirmPreserves | child_cancel_confirmation.go:146-197 | a stop confirmation keeps the group valid |
| ChildSteps.ResolveWaitPreserves | child_wait.go:121-164 | resolving a waiting child keeps the group valid |
| ChildSteps.ResolveOutcomePreserves | child_outcome_resolution.go:181-266 | an outcome decision keeps the group valid, and its request digest can be derived again from the group |
| ChildSteps.JoinPreserves | child_join.go:52-114 | a join keeps the group valid and merges all children in ID order |
| ChildSteps.ReturnPreserves | child_budget_return.go:49-97 | a return keeps the group valid and the children untouched |
| ChildCapacity.ValidateChildCapacityLedger | child_budget_return.go:135-159 | the loop in map order accepts exactly when groups of one activation share a capacity and together never hold more than it of any counter |
| ChildCapacity.LedgerPart | child_budget_return.go:135-159 | the conservation law holds for every subset of groups for which it holds |
| ChildLedger.LedgerUntouched | child_launch.go:246-338 | launch, finish, recovery, cancellation, resolution and join keep the conservation law |
| ChildLedger.LedgerReturned | child_budget_return.go:49-97 | a committed return keeps the conservation law |
| ChildLedger.ReturnWrites | child_budget.go:6-28 | after a return the child holds exactly what it used, and other children what they held |
| ChildLaunch.LaunchableChildIDs | child_launch.go:83-94 | the IDs of the planned and queued children in order, none once cancellation was requested |
| ChildLaunch.LaunchableAre | child_launch.go:83-94 | they are distinct and exactly the children not launched yet |
| ChildLaunch.LaunchChildGroup | child_launch.go:96-141 | in whatever order children finish, never more than MaxConcurrency are in flight, each is begun at most once in order, and success means all were begun and received |
| ChildOps.PrepareSound | child_persistence.go:39-84 | fixing a plan keeps the aggregate invariant, the capacity ledger included |
| ChildOps.QueueSound | child_launch.go:265-272 | the queued write of a launch keeps the aggregate invariant |
| ChildOps.RunSound | child_launch.go:273-278 | so does the running write of a launch |
| ChildOps.FinishSound | child_launch.go:293-338 | so does finishing a child |
| ChildOps.RecoverSound | child_launch.go:207-244 | so does recovering the launches of earlier incarnations |
| ChildOps.CancelSound | child_cancel.go:87-129 | so does a cancellation request |
| ChildOps.JoinSound | child_join.go:52-114 | so does a join |
| ChildOps.ReturnSound | child_budget_return.go:49-97 | so does a budget return |
| ChildOps.ConfirmSound | child_cancel_confirmation.go:41-144 | so does a stop confirmation |
| ChildOps.ResolveWaitSound | child_wait.go:38-119 | so does the resolution of a waiting child |
| ChildOps.ResolveOutcomeSound | child_outcome_resolution.go:50-133 | so does an outcome decision; no decision ID is ever used twice in an aggregate |
| Envelopes.ValidateWaits | durable_wait_arbitration.go:105-144 | the pass with an armed counter decides the wait collection predicate |
| Envelopes.ValidateOutcomeIDs | child_outcome_resolution.go:287-302 | the seen-set pass decides that no outcome decision ID occurs twice |
| LifecycleChecks.ValidateCollections | execution_integrity.go:38-52 | the three loaders together decide CollectionsValid |
| AggregateInvariant.LoadsIff | execution_integrity.go:38-52 | a committed aggregate passes the loader exactly when its cursor addresses every unresolved activity and every unmerged group |
| AggregateInvariant.ExtendsTransitive | execution_integrity.go:33-52 | how later envelopes extend earlier ones is transitive |
| AggregateInvariant.JournalCarried | activity_references.go:16-32 | an untouched journal stays valid if the cursor stays, or moves with nothing unresolved |
| AggregateInvariant.ChildrenCarried | child_references.go:22-35 | untouched groups stay valid if the cursor stays, or moves with all groups merged |
| AggregateInvariant.WaitsCarried | durable_wait_arbitration.go:137-144 | untouched waits stay valid unless an armed or canceled one pins cursor and terminal |
| StepOps.ResolvedActivities | execution_checkpointer.go:221-264 | the three scans report nothing exactly when nothing of the current activation is unresolved, and otherwise an error of the first kind that applies |
| StepOps.ResolvedIsIdle | execution_checkpointer.go:221-264 | under the invariant that gate means: no armed wait, no unresolved activity and no unmerged group at all |
| StepOps.SaveSound | execution_checkpointer.go:40-79 | a saved snapshot keeps the aggregate invariant |
| StepOps.CommitStepSound | execution_checkpointer.go:173-219 | a step commit keeps the aggregate invariant and happens only with nothing outstanding |
| StepOps.CommitRunFailureSound | execution_failure.go:47-71 | a definitive failure keeps the aggregate invariant |
| StepOps.MigrateSound | durable_runner.go:212-238 | an admitted migration keeps the aggregate invariant, although it was validated at the source revision only |
| RuntimeOps.ApplySound | execution_checkpointer.go:173-264 | every write of all 24 operations extends its source and keeps the aggregate invariant, whether the run is over, waiting or active; the one exception is a delivery that decides over outstanding work |
| Gates.PrepareGateIff | activity.go:156-215 | a prepared activity always loads, and nothing is outstanding behind a terminal or an armed wait afterwards exactly when the call came in a run that is neither over nor waiting |
| Gates.PrepareChildrenGateIff | child_persistence.go:39-84 | the same for a prepared group of children |
| Gates.GateKept | execution_checkpointer.go:221-264 | every other write of every operation keeps that gate closed |
| LateFindings.LateCallStrandsExecution | durable_wait_delivery.go:189-226 | concrete input: a wait is armed, a late activity call is accepted and still loads, and the next delivery commits an envelope the loader rejects |
| RuntimeOps.RunningKept | activity.go:266-269 | an attempt a session dispatched stays the running one until that session finishes it |
| Replay.SavedSnapshotLoads | execution_checkpointer.go:54-79 | if the store takes a saved snapshot, the next load returns it, with journal and children untouched |
| Replay.StepSnapshotLoads | execution_checkpointer.go:173-219 | so it does for the snapshot of a step, whose terminal has the status, reason and failure the step ended with |
| Replay.FailureSnapshotLoads | execution_failure.go:47-71 | so it does for the snapshot of a definitive failure, whose terminal is failed with its reason and message |
| Replay.ArmedSnapshotLoads | durable_wait_registration.go:32-71 | so it does for the snapshot stored with an armed wait, of which there was none before |
| Replay.StepsBindAfresh | execution_checkpointer.go:201-206 | a step starts an activation that sees no earlier record or group, except a self retry, which finds all of its own |
| Replay.ContinuationsBindAfresh | durable_wait_delivery.go:217-225 | so does the continuation of a decided wait |
| Replay.CompletedIsReplayed | activity.go:179-181 | a completed activity replays its recorded outcome to every later call with its input, implementation and policy, refuses any other call, and is never started again |
| Replay.PreparedCanStart | activity.go:191-239 | a freshly prepared activity can be started at once |
| Lifecycle.ValidateRecordLimit | execution_lifecycle_validation.go:56-93 | the subtraction loop accepts exactly when activities, children and waits together are within the limit |
| Lifecycle.PublicationFacts | execution_lifecycle_validation.go:98-181 | a publication has a fresh target that continues exactly this untransferred source at a safe boundary, with equal accounting |
| LifecycleChecks.ValidateLifecycleBoundary | execution_lifecycle_validation.go:11-54 | the checks in order return the boundary error of the model |
| LifecycleChecks.PrepareRolloverPublication | execution_lifecycle_validation.go:98-142 | the checks in order return the publication or the error of the model |
| Transfers.FreshSound | durable_start.go:33-56 | first revisions satisfy the aggregate invariant |
| Transfers.TransferredSound | execution_lifecycle_validation.go:136-141 | the transferred revision of a rollover source satisfies the aggregate invariant and extends its source |
| Retention.ValidateRetention | execution_retention.go:38-57 | the pass with one remembered value decides strictly increasing protected revisions within the head |
| Retention.RetentionSelection | adapters/checkpointer/postgres/execution_retention.go:133-153 | for every revision from 1 to the head the SQL delete predicate removes it exactly when the runtime does not retain it |
| StoreRuns.RetentionLoads | testutil/execution_retention.go:10-67 | after a retention a revision loads as before if it is the head, protected or among the last KeepLast ones and the payload is not deleted, and otherwise it is unavailable |
| StoreSteps.CommitKeeps | testutil/execution_store.go:79-144 | a commit keeps the store consistent, is made under the newest fence, raises the head by one and writes exactly one payload |
| StoreSteps.AcquireKeeps | testutil/execution_store.go:180-212 | an acquisition raises the fence by one and keeps the store consistent |
| StoreSteps.RenewKeeps | testutil/execution_store.go:214-233 | a renewal changes only the lease |
| StoreSteps.ReleaseKeeps | testutil/execution_store.go:235-253 | a release changes only the lease |
| StoreSteps.RolloverKeeps | testutil/execution_rollover.go:26-80 | a published pair keeps the store consistent, with all older revisions of the source still anchored |
| StoreSteps.RetainKeeps | testutil/execution_retention.go:10-67 | retention keeps the store consistent and removes exactly the payloads that are not retained |
| StoreRuns.EveryRevisionLoads | testutil/execution_store.go:147-178 | in every reachable store every retained revision loads against its fork, incoming and outgoing anchors |
| StoreRuns.HistoryIsImmutable | testutil/execution_store.go:134-139 | heads and fences never fall, and a revision still stored after any further calls is the one stored before |
| StoreRuns.CommitIsFenced | testutil/execution_store.go:79-144 | a commit quotes the head, raises it by one and carries the newest incarnation |
| StoreRuns.WritersAreOrdered | testutil/execution_store.go:79-144 | of two writes to one execution, commits or the rollover that transfers it, the later replaces the larger revision and has no smaller incarnation |
| StoreRuns.IncarnationsIncrease | testutil/execution_store.go:200-211 | acquisitions of one execution get strictly increasing incarnations |
| StoreRuns.StaleHandleNeverActs | testutil/execution_store.go:255-259 | a handle with a successor never commits, renews, releases or rolls over again after any further calls |
| StoreRuns.DeletedForever | testutil/execution_retention.go:39-66 | an identity whose payload was deleted stays deleted and never loads again |
| StoreRuns.DeletedRefuses | testutil/execution_store.go:106-113 | a deleted identity accepts no commit and is neither source nor target of a rollover |
| RolloverChains.LinksAreInverse | testutil/execution_rollover.go:73-78 | outgoing and incoming receipts are mutually inverse |
| RolloverChains.ChainIsAcyclic | testutil/execution_rollover.go:57-59 | no execution occurs twice in a chain of transfers |
| RolloverChains.EveryChainHasOneAuthority | testutil/execution_rollover.go:26-80 | every execution lies in a complete chain with exactly one untransferred member, its last |
| RolloverChains.ChainsAreUnique | testutil/execution_rollover.go:26-80 | complete chains that share a member are equal |
| RolloverChains.AccountingIsInherited | execution_lifecycle_validation.go:171-174 | at every link the target inherits the retry and budget counts of its source and restarts the step count |
| RolloverChains.TransferIsFinal | execution_lifecycle_validation.go:185-199 | a transferred source accepts no commit and no rollover, now or after any further calls |
| RolloverChains.TargetWasFresh | testutil/execution_rollover.go:57-59 | a rollover target was never acquired or committed at any earlier point of the run |
| Replay.CommitThenLoad | testutil/execution_store.go:45-57 | the next load returns what was committed, and other executions load as before |
| Replay.AcquireNeedsRelease | testutil/execution_store.go:193-199 | a live handle blocks every acquisition; after its release the next one succeeds under the next incarnation |
| MemoryStore.MemoryExecutionStore.LoadExecution | testutil/execution_store.go:45-57 | returns the anchored head, or the error of the model |
| MemoryStore.MemoryExecutionStore.LoadCheckpointAt | testutil/execution_store.go:59-77 | returns the anchored revision, or the error of the model |
| MemoryStore.MemoryExecutionStore.DecodeAnchored | testutil/execution_store.go:147-178 | checks integrity and the three anchors |
| MemoryStore.MemoryExecutionStore.CommitExecution | testutil/execution_store.go:79-144 | changes the maps to the store the model commits, or not at all |
| MemoryStore.MemoryExecutionStore.AcquireExecution | testutil/execution_store.go:180-212 | changes lease and fence as the model does, or nothing |
| MemoryStore.MemoryExecutionStore.RenewExecution | testutil/execution_store.go:214-233 | changes the lease as the model does, or nothing |
| MemoryStore.MemoryExecutionStore.ReleaseExecution | testutil/execution_store.go:235-253 | removes the lease as the model does, or nothing |
| MemoryStore.MemoryExecutionStore.LoadRollover | testutil/execution_rollover.go:10-24 | in a consistent store the read never fails and returns the outgoing receipt if there is one; whatever it returns is a valid receipt |
| MemoryStore.MemoryExecutionStore.CommitRolloverPair | testutil/execution_rollover.go:26-80 | publishes both halves and both anchors of the model, or nothing |
| MemoryStore.MemoryExecutionStore.RetainExecution | testutil/execution_retention.go:10-67 | removes the payloads of the model and returns their number, or nothing |
| MemoryStore.Survivors | testutil/execution_retention.go:58-65 | the delete loop in map order keeps exactly the retained payloads and counts the others |
| Checkpointing.ExecutionCheckpointer.Persist | activity.go:301-323 | one commit from the current envelope: acknowledged and adopted, rejected with nothing changed, or committed with its reply lost and the old envelope kept; both failures are remembered |
| Checkpointing.ExecutionCheckpointer.PersistSnapshot | execution_checkpointer.go:54-79 | the same, and on success the step revision is the committed one |
| Checkpointing.ExecutionCheckpointer.Save | execution_checkpointer.go:27-52 | a stale step revision or foreign thread conflicts; otherwise the save step is carried out, and in a run that is not over the class invariant is kept |
| Checkpointing.ExecutionCheckpointer.CommitStep | execution_checkpointer.go:173-219 | the step commit of the model is carried out and answered, the stored terminal is the one the step ended with, and in a run that is not over the class invariant is kept |
| Checkpointing.ExecutionCheckpointer.CommitRunFailure | execution_failure.go:47-92 | nothing after a cancellation or a failed commit; otherwise the failure step of the model is carried out |
| Checkpointing.ExecutionCheckpointer.ArmWait | durable_wait_registration.go:32-71 | a stale step revision conflicts; otherwise the arm step of the model is carried out, and in a run that is not over the class invariant is kept |
| Checkpointing.ExecutionCheckpointer.CallActivity | activity.go:156-252 | a call is the prepare step followed by the begin step; only a record of this very request is dispatched, recovered or replayed; a dispatch is returned only with its running record stored and acknowledged, and a replay returns the recorded outcome without a write |
| Checkpointing.ExecutionCheckpointer.RecoverActivity | activity.go:256-284 | the takeover step of the model is carried out |
| Checkpointing.ExecutionCheckpointer.StartActivity | activity.go:216-239 | the second write of a call: the begin step is carried out and its refusal reported |
| Checkpointing.ExecutionCheckpointer.FinishActivity | activity.go:339-388 | the finish step of the model is carried out; a recorded failure is reported by the error its new state answers with |
| Checkpointing.ExecutionCheckpointer.PrepareChildren | child_persistence.go:39-84 | the prepare step of the model is carried out, with the planning and ledger loops of the source |
| Checkpointing.ExecutionCheckpointer.BeginChild | child_launch.go:246-291 | a launch is the queue step followed by the run step; it returns the invocation of the stored version only with the running child acknowledged |
| Checkpointing.ExecutionCheckpointer.RunQueued | child_launch.go:273-290 | the second write of a launch: the run step is carried out and answered |
| Checkpointing.ExecutionCheckpointer.FinishChild | child_launch.go:293-338 | the finish step of the model is carried out; success means the host's result is stored, and an unknown outcome is reported as unresolved |
| Checkpointing.ExecutionCheckpointer.RecoverChildLaunches | child_launch.go:207-244 | the recovery step of the model is carried out; success means no child is running or unknown and no failure has still to stop its siblings |
| Checkpointing.ExecutionCheckpointer.RequestCancellation | child_cancel.go:87-129 | the cancellation step of the model is carried out, with the loop of the source; unless the clock is zero the class invariant is kept |
| Checkpointing.ExecutionCheckpointer.JoinChildren | child_join.go:52-114 | the join step of the model is carried out; a replay returns the cached merge |
| Checkpointing.ExecutionCheckpointer.ReturnChildBudget | child_budget_return.go:49-97 | the return step of the model is carried out; unless the clock is zero the class invariant is kept |
| DurablePerform.RunKeeps | durable_runner.go:266-363 | every run of any sessions, with node calls at any time, crashes, takeovers, lost replies, rollover and retention, keeps the world invariant |
| DurablePerform.PerformFacts | execution_checkpointer.go:54-79 | a successful commit of a session replaced exactly the envelope the session held |
| DurableTheorems.AggregatesAreAlwaysSound | execution_integrity.go:38-52 | every envelope committed in any run keeps the core invariant, and passes the loader at its own revision and at all later ones exactly when its cursor addresses everything outstanding |
| DurableTheorems.LoadsIffTimely | execution_integrity.go:38-52 | all envelopes a run ever commits pass the loader if and only if no delivery in it decides its wait over outstanding work |
| DurableTheorems.PunctualRunsLoad | durable_runner.go:312-317 | that never happens, and nothing is outstanding behind a terminal or an armed wait, while node code prepares work only in a run that is neither over nor waiting |
| DurableTheorems.UnloadableIsLast | durable_wait_delivery.go:120-160 | a committed envelope that does not load stays the last revision of its execution for ever |
| LateRuns.SomeRunNeverLoads | durable_wait_delivery.go:189-226 | concrete run: worker, late call, takeover and delivery end in a committed envelope that does not load |
| DurableTheorems.LaterExtends | testutil/execution_store.go:134-139 | of two envelopes of one execution committed at any two points of a run the later extends the earlier, whatever retention removed in between |
| DurableTheorems.ActivationGate | execution_checkpointer.go:173-264 | in every committed envelope that loads everything unresolved belongs to the current activation; armed waits always do; behind a terminal no wait is armed and, if node code was punctual, nothing is outstanding |
| DurableTheorems.TerminalIsFinal | execution_lifecycle_validation.go:289-299 | a committed terminal changes only from completed to transferred, and activations never fall |
| DurableTheorems.DispatchesAreAcknowledged | activity.go:234-249 | no dispatch precedes the commit of its running record, and no attempt number exceeds max(1, MaxAttempts) |
| DurableTheorems.AttemptsAreDispatchedOnce | activity.go:216-252 | over a whole run each attempt of an activity is dispatched at most once, under an unchanged contract |
| DurableTheorems.RetriesAreJustified | activity_attempt_integrity.go:3-34 | attempt n+1 is dispatched only after attempt n is stored as retryably failed, or as unknown with a retry decision |
| DurableTheorems.DispatchesAreBounded | activity_retry.go:71-89 | over a whole run an activity is dispatched at most max(1, MaxAttempts) times |
| DurableTheorems.OutcomesArePermanent | activity_integrity.go:122-154 | a settled activity record is the same in every revision committed later in the run, and an unsettled one only grows |
| DurableTheorems.ChildrenAreLaunchedOnce | child_launch.go:246-291 | over a whole run a child is dispatched at most once |
| DurableTheorems.UnknownNeedsDecision | activity.go:256-284 | an unknown attempt is followed by another one only after an operator decided, after that revision, to retry it |
| DurableTheorems.ChildVersionsAreFaithful | child_state.go:3-40 | two envelopes committed at any two points of a run with the same child revision hold the same child; settled children never change |
| DurableTheorems.CapacityIsConserved | child_budget_return.go:135-159 | in every committed aggregate the groups of an activation hold at most the declared capacity of every counter |
| DurableTheorems.ArbitrationHolds | durable_wait_arbitration.go:168-246 | in every committed wait every decision stands where its status says, and only the winner is accepted |
| DurableTheorems.DecisionsArePermanent | durable_wait_arbitration.go:31-78 | decisions and fates of waits are in every revision committed later in the run, and a generation keeps naming one wait |
| DurableTheorems.RedeliveryNeverWrites | durable_wait_arbitration.go:31-78 | a delivery ID recorded in a committed envelope never writes again at any later point of the run: the same delivery is replayed, another one is a conflict |
| MigrationChain.ExecutionMigrationChain | execution_contract.go:250-283 | an ill-formed registry is invalid; otherwise the two loops end, on cyclic registries too, with the walk over the edges |
| MigrationChain.ChainIffReachable | execution_contract.go:268-282 | the search succeeds exactly when the target is reachable, and its result is the only repeat-free contiguous chain |
| MigrationChain.FailureKind | execution_contract.go:270-278 | a failed search reports a missing migration exactly when it runs into a dead end, and otherwise an invalid registry |
| MigrationChain.OrderIsIrrelevant | execution_contract.go:254-267 | the search depends only on which entries are registered, not on their order |
| MigrationChain.RegistryIsKeyed | execution_contract.go:254-267 | the indexed edges are keyed by their sources, as the search results require |
| ActivityAnswers.OtherRequestConflicts | activity.go:174-178 | a stored record, in any state, refuses every call with another input, implementation or policy as a conflict |
| ActivityAnswers.CallAnswer | activity.go:169-239 | what a call with the stored contract gets in each state: replay, busy, unknown, the failure, or exactly from its deadline on one more running attempt and nothing else changed |
| ActivityAnswers.PrepareAnswer | activity.go:191-215 | the first write of a call is a record of this very request under the current cursor; an invalid request is refused and an existing record kept |
| ActivityAnswers.TakeoverAnswer | activity.go:256-284 | a takeover leaves another incarnation's running attempt unknown, after which no call starts it; an attempt of its own is busy |
| ActivityAnswers.NothingToTakeOver | activity.go:256-284 | a takeover leaves a record that is not running as it is |
| ActivityAnswers.MissingRecord | activity.go:339-352 | nothing is started, taken over or finished that was not prepared |
| ActivityAnswers.SuccessAnswer | activity.go:368-375 | a returned outcome is the one recorded, with its origin, and completes the activity |
| ActivityAnswers.RepeatedOutcome | activity.go:355-366 | an outcome presented again is replayed if it is the recorded one and a conflict otherwise |
| ActivityAnswers.FailureAnswer | activity_retry.go:119-152 | a failure is recorded with its message and class: ambiguous leaves the activity unknown, retryable with attempts left is scheduled by the policy, any other is final |
| ActivityAnswers.FailureThenCall | activity_retry.go:51-89 | the next call is refused as failed, exhausted, unscheduled or unknown, or waits for the policy's deadline and then starts |
| ActivityAnswers.ResolutionAnswer | activity_resolution.go:152-229 | an operator's completion leaves the operator's outcome, a failure a definite failure, a retry a start at the policy's delay or the operator's time, whichever is later; the decision is appended as given |
| ActivityAnswers.ResolutionThenCall | activity_resolution.go:152-170 | every later call, by any incarnation, replays the operator's outcome or is refused as failed |
| ActivityAnswers.RetryThenCall | activity_resolution.go:171-185 | a retry the operator ordered is pending before its time and starts from then on |
| ActivityAnswers.ResolveWritesIff | activity_resolution.go:54-189 | exactly which decisions are accepted: complete, about the current revision of an unfinished run, for the contract of a running or unknown record, under a new ID and within their action |
| RetrySchedule.Jittered | activity_schedule.go:142-154 | the delay taken off is the random sample up to whole widths of the jitter band |
| RetrySchedule.AcceptedIff | activity_schedule.go:117-165 | exactly when a retry is scheduled, and that it keeps the hint and the sampled delay |
| WaitAnswers.ArmAnswer | durable_wait_registration.go:32-71 | exactly when a wait is armed, that it is the node's spec in the generation of that revision, and that only the snapshot changes beside it |
| WaitAnswers.ArmRefuses | durable_wait_registration.go:32-71 | every refusal to arm, in the order of the checks: profile, pointer, revision, outstanding work, spec, identity |
| WaitAnswers.VerdictAnswer | durable_wait_arbitration.go:31-91 | a timer or a matched event decides an armed wait, an event the host refused leaves it armed, and nothing else changes its fate; the ledger entry is the delivery's own |
| WaitAnswers.RecordedIff | durable_wait_arbitration.go:31-78 | exactly which deliveries are recorded |
| WaitAnswers.NotRecorded | durable_wait_arbitration.go:53-65 | a delivery under a new ID is refused as stale only for an armed wait, and as invalid when malformed or early |
| WaitAnswers.DeliverAnswer | durable_wait_delivery.go:77-106 | a deciding delivery commits its continuation at the pointer of its kind with the winner; any other one its ledger entry alone |
| WaitAnswers.DeliverWritesIff | durable_wait_delivery.go:41-106 | exactly when a delivery writes, and the errors of unknown generations |
| WaitAnswers.CancelAnswer | durable_wait_cancellation.go:34-96 | exactly when a cancellation writes, and that it ends the run as failed by that request without moving the cursor |
| WaitAnswers.LateCancellation | durable_wait_cancellation.go:98-127 | a cancellation of a decided wait never writes: the same one is replayed, another one refused by how the wait ended |
| WaitAnswers.CancelRefuses | durable_wait_cancellation.go:34-127 | every refusal to cancel: missing fields, unknown generations, stale revisions |
| WaitAnswers.CancellationReplays | durable_wait_cancellation.go:98-127 | a cancellation carried out and presented again later is replayed |
| ChildAnswers.LaunchAnswer | child_launch.go:246-291 | exactly a planned child of a group without cancellation is queued and exactly a queued one run, under this incarnation in its next version |
| ChildAnswers.FinishAnswer | child_launch.go:293-338 | exactly when the end of a dispatch is recorded: a failed dispatch always as unknown with its message, otherwise the host's result as it is; no other child changes |
| ChildAnswers.FailedDispatchBlocks | child_join.go:70-75 | after a failed dispatch the group cannot be joined |
| ChildAnswers.MissingChild | child_launch.go:246-338 | a child that was not planned is neither queued, run nor finished |
| ChildAnswers.UnknownBlocks | child_budget.go:6-28 | an unknown child blocks the join of its group and the return of its units |
| ChildAnswers.RecoverAnswer | child_launch.go:207-244 | exactly the children earlier incarnations left running become unknown; a running child of this incarnation makes the group busy |
| ChildAnswers.CancelAnswer | child_cancel.go:87-129 | a first request is recorded and cancels, asks or leaves each child by its state; the same again is replayed, another refused |
| ChildAnswers.CancelRefuses | child_cancel.go:94-98 | a request about another version of the group, or after its join, is refused |
| ChildAnswers.ConfirmAnswer | child_cancel_confirmation.go:146-183 | exactly when a stop is confirmed, and that it settles the child as canceled with its evidence |
| ChildAnswers.DecisionRefused | child_cancel_confirmation.go:41-144 | a decision about another revision conflicts, and a finished run or a joined group takes none |
| ChildAnswers.NamelessRefused | child_wait.go:38-46 | a decision that names no group, child, execution or version is invalid |
| ChildAnswers.ConfirmRefuses | child_cancel_confirmation.go:41-183 | every refusal to confirm a stop: incomplete, about another revision, about another child, version or request |
| ChildAnswers.WaitResolutionAnswer | child_wait.go:121-148 | exactly when a waiting child is resolved, and with which result and provenance |
| ChildAnswers.WaitResolutionRefuses | child_wait.go:38-148 | every refusal to resolve a waiting child |
| ChildAnswers.OutcomeAnswer | child_outcome_resolution.go:181-226 | exactly when an unknown or abandoned child gets an operator's outcome, and with which result and provenance |
| ChildAnswers.OutcomeRefuses | child_outcome_resolution.go:50-226 | every refusal of an operator's outcome, also of one already recorded: a joined or renamed group does not even replay |
| ChildAnswers.RepeatedOutcome | child_outcome_resolution.go:268-285 | an outcome decision ID used anywhere never writes again: the same decision is replayed, another refused |
| ChildAnswers.JoinAnswer | child_join.go:52-114 | exactly a group with all children settled is joined, once, with the host's merge and the IDs in order; later joins replay |
| ChildAnswers.AssertionRefused | child_budget_return.go:49-62 | a group other than the stored one is neither joined nor gets units back |
| ChildAnswers.ReturnAnswer | child_budget_return.go:49-97 | units go back exactly for a settled child in the claimed version and a claim within its allocation, and used plus returned is the allocation |
| ChildAnswers.RepeatedReturn | child_budget_return.go:63-69 | the same claim again is replayed, another one for that child refused |
| ChildAnswers.PlanAnswer | child_persistence.go:55-84 | exactly a plannable group within the activation's capacity is stored: the plan's specs permuted into ID order, none queued yet |
| ChildAnswers.ReplanAnswer | child_persistence.go:49-57 | the plan of an existing group is replayed in whatever order its specs come; other specs, labels or capacities are refused |
| StepAnswers.SaveAnswer | execution_checkpointer.go:40-79 | a snapshot is saved exactly with nothing outstanding, and changes nothing but itself |
| StepAnswers.StepAnswer | execution_checkpointer.go:173-219 | exactly when a step is committed, its terminal (status, reason, failure message), its activation and its snapshot |
| StepAnswers.FailureAnswer | execution_failure.go:47-92 | a definite failure ends an unfinished run with nothing outstanding as failed with reason and message; otherwise nothing is written |
| StepAnswers.MigrateAnswer | durable_runner.go:212-238 | a migration replaces exactly what was migrated and records its source revision, seal and chain |
| StepAnswers.MigrateAdmits | durable_runner.go:212-238 | a migration that keeps the cursor of a valid aggregate is admitted |
| StoreAnswers.AcquireAnswer | testutil/execution_store.go:180-212 | exactly a free execution is acquired, under the next incarnation, and the lease is live exactly for the time asked; a held one is refused by owner |
| StoreAnswers.RenewAnswer | testutil/execution_store.go:214-233 | exactly a live lease is renewed, and is then live exactly for the time asked from now on |
| StoreAnswers.ReleaseAnswer | testutil/execution_store.go:235-253 | the newest handle releases, again too, and then nobody holds the execution |
| StoreAnswers.ForkAnswer | execution_fork_contract.go:37-51 | exactly which fork lineages a first commit may name, that it is anchored, and that any other is refused as corrupt |
| StoreAnswers.CommitIff | testutil/execution_store.go:79-144 | exactly which commits a consistent store takes, and the errors of lost leases and stale revisions |
| StoreAnswers.RolloverLoads | testutil/execution_rollover.go:26-80 | after a rollover the source loads as its last envelope marked transferred and the target as handed over, under one receipt that names both exactly |
| StoreAnswers.RolloverIff | execution_lifecycle_validation.go:98-181 | exactly which rollovers are published |
| StoreAnswers.BoundaryIff | execution_lifecycle_validation.go:11-54 | a safe boundary is exactly a sound envelope with nothing outstanding, nothing of an unfinished activation and every allocation returned |
| StoreAnswers.RetainIff | testutil/execution_retention.go:10-67 | exactly which retentions are carried out |
| DurableAnswers.BeginDispatches | activity.go:234-249 | an acknowledged start is dispatched once, as committed, and serves the key, input, implementation and policy of the call that started it |
| DurableAnswers.DispatchesAreRequested | activity.go:156-252 | every dispatch of every run serves the request of one acknowledged start of that run |
| DurableAnswers.RunLaunches | child_launch.go:273-290 | an acknowledged running child is launched once, as committed |
| DurableAnswers.MoveLaunches | child_launch.go:246-291 | no other move launches a child |
| DurableAnswers.SessionAfter | execution_checkpointer.go:74-79 | after an acknowledged operation the session knows exactly the committed envelope |
| DurableAnswers.SessionMay | durable_runner.go:312-317 | what restrains the operations of a session in the world, and that nothing else does |
| DurableAnswers.StartedMayFinish | activity.go:240-252 | after an acknowledged start the session may finish exactly that attempt, once, with any outcome |

## Left out

- Host codecs, node handlers, and the match, apply, merge, project and transform callbacks: their results are arbitrary inputs of the operations.
- The graph engine, directives, inline subgraphs, handoffs, patterns and Mermaid export: outside the durable aggregate.
- PostgreSQL and Redis adapters, except the retention predicate: foreign semantics for the contract the memory store states.
- Observers, telemetry, streaming and logging: no effect on committed state.
- Heartbeat goroutines, context deadlines and mutexes: a lease may expire at any move, and a locked section is one move.
- UTF-8 checks, JSON wire format and hash collisions: text is text, and digests are injective.
- Authorization callbacks of forks, the fork and import transformations themselves, and the check that a fork source is settled: only their lineage, its immutability and their first revision are modelled.
- Compatibility checks of descriptors, pointers, wait contract labels and wait backends when a session is opened: they only refuse sessions.
- Encoded sizes of envelopes are inputs of a rollover; deleted bytes are not part of a retention receipt.
- `replayRollover`, which answers a repeated rollover request from the stored receipt: only the receipt's permanence is proved.
- ChildCapacity.ValidateChildCapacityLedger: stated for capacities with named, nonnegative counters, which both callers have validated before (child_persistence.go:60-69, child_persistence.go:104-116).
- Which of several unresolved activities the gate reports: the source takes the first in map order, and `StepOps.ResolvedActivities` allows any.
- `GetHistory` and the inspection functions: reads over loads that are modelled.
