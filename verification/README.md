# Dafny model of the booking and pricing workers

This project models the parts of the repository whose correctness depends on many steps acting
together, and proves what those steps promise.

* **The booking-special-operation protocol** (`BookingRules`, `RuleTable`, `RuleMeanings`,
  `InstructionProtocol`, `ProtocolInvariant`, `ProtocolTheorems`, `ChainSaga`). The table `booking_applied_rules` holds price
  overrides and their removals. `RuleTable.Table` performs the worker's statements on it in place;
  `BookingRules` says what each of them does and `RuleMeanings` what that means for each row in terms of its
  own fields; `InstructionProtocol` is the state machine of
  generations, remove-bso tasks, rollbacks, callbacks and crashes; the theorems hold over all its runs.
* **Checkpointed dispatch** (`DispatchPlan`, `GenerationPlan`, `DispatchHandler`, `RollbackHandler`,
  `QueueOrder`, `HandlerRuns`, `Settlement`, `Resume`). Handlers perform durable effects one at a time and may crash after any of them. A
  `budget` counts the effects until the crash, so every crash point is covered.
* **The chain pipeline** (`Topology`, `ChainPipeline`, `ChainEntries`): ordering linked listings,
  choosing rules, numbering, forwarding, and the validator that accepts the result. Listing and chain
  ids are taken without surrounding blanks and categories as not blank, as the workers read them.
* **Listing links** (`LookupComponents`, `ListingLinks`): a pointer per listing that stands for a family
  of chains, and the component search behind the link endpoint.
* **Three smaller algorithms**: `Registration` (resumable upserts), `Seeding` (manifest tasks) and
  `DollarQuote` (PostgreSQL literals, section 4.1.2.4 of the PostgreSQL documentation).

`Collections` holds shared sequence facts. `dafny verify dfyconfig.toml` checks everything.

## What the model assumes

* A transaction commits as a whole. Between a generation's overlap search, taken as one read, and its
  reservation anything may happen (`SearchOverlaps`, `ReserveOverlaps`); every other transaction is one
  step. A callback's row load and status update are one step, and its
  status update may run again after a crash as long as its row has not become final with another
  outcome. `LateReplayResurrects` shows what happens otherwise, `StaleUpdateKeepsFinalIff` exactly when.
* At most one generation is in flight per listing, and the entries of one generation for the same
  listing request disjoint nights; `GenerationIsAccountedIff` shows that the second is exactly needed,
  and `ClashingGeneration` that the worker does not ensure it.
* Callbacks echo the recorded source id, as `external_services_worker.py` does
  (`workers/pws_workers/external-services-worker/external_services_worker.py`, lines 3090-3096).
* In `ChainSaga` the dependency edges hold a chain's callbacks to chain order and other work neither
  reserves nor changes the chain's rows; `FailureIsUndoneIff` shows exactly what both are needed for.
* The external worker answers every instruction it runs unless its task is lost first, and the scheduler
  fails the dependents of a failed task without running them. `Settlement` shows exactly which rows of a
  generation are then answered; the theorems over runs allow any row to stay unanswered.
* `uuid4` never repeats and `uuid5` is injective in the pair it is computed from. Identifiers drawn
  for one plan are numbered from a base above all used ones.
* `ActionStateManager` persists each checkpoint atomically; the cursor is the last reported id and is
  not reset by `begin_step`. `add_task_dependencies` inserts into a set.
* A table is the sequence of its rows and an id is a position. A date is a day number.

## Model

| member | source | states |
|---|---|---|
| `ProtocolTheorems.SharedNightsAreAccounted` | workers/pws_workers/booking-special-operation-worker/booking_special_operation_worker.py:542-603 | In every state a run from the empty table reaches: if two active overrides of one (booking, property, platform, listing) share a night, a removal row of the older one names that night and is `processing` or `failed` |
| `ProtocolTheorems.SettledListingsAreDisjoint` | workers/pws_workers/booking-special-operation-worker/booking_special_operation_worker.py:2251-2332 | In every reachable state with no removal pending or failed, active overrides of one listing are pairwise night-disjoint |
| `ProtocolInvariant.RunKeepsInv` | workers/pws_workers/booking-special-operation-worker/booking_special_operation_worker.py:2251-2447 | One inductive invariant (rows well formed, successful removals effective, shared nights accounted for, flights sound, identifiers exclusive) survives any interleaving of generations, remove-bso tasks, rollbacks, callbacks and crashes, the rerun of a status transaction whose checkpoint was lost included |
| `ProtocolInvariant.StepKeepsInv` | workers/pws_workers/booking-special-operation-worker/booking_special_operation_worker.py:2884-2946 | Each single transaction, with or without the checkpoint after it, and a callback's status transaction run once more, keeps that invariant |
| `ProtocolInvariant.DeliverKeepsInv` | workers/pws_workers/booking-special-operation-worker/booking_special_operation_worker.py:2884-2946 | A callback, successful or failed, for an override or a removal, keeps the invariant |
| `ProtocolInvariant.ReplayKeepsInv` | workers/pws_workers/booking-special-operation-worker/booking_special_operation_worker.py:2884-3055 | A status transaction run against any later table keeps the invariant, provided its own row has not become final with another outcome |
| `ProtocolInvariant.GenerationPlanKeepsInv` | workers/pws_workers/booking-special-operation-worker/booking_special_operation_worker.py:2251-2355 | Finding overlaps, reserving them and checkpointing the plan keeps the invariant, also when the crash comes before the checkpoint and the reservation stays behind |
| `ProtocolInvariant.SearchKeepsInv` | workers/pws_workers/booking-special-operation-worker/booking_special_operation_worker.py:2256-2268 | Finding overlaps keeps the invariant when nothing is reserved yet, so the reservation may come any time later |
| `ProtocolInvariant.ReserveKeepsInv` | workers/pws_workers/booking-special-operation-worker/booking_special_operation_worker.py:591-603 | Reserving rows found some time ago, whatever has happened to them since, keeps the invariant |
| `ProtocolInvariant.RollbackPlanKeepsInv` | workers/pws_workers/booking-special-operation-worker/booking_special_operation_worker.py:3064-3113 | Planning compensating removals with deterministic identifiers keeps the invariant, also when the same rollback was planned before |
| `ProtocolTheorems.GenerationIsAccountedIff` | workers/pws_workers/booking-special-operation-worker/booking_special_operation_worker.py:2256-2268 | An uninterrupted generation keeps shared nights accounted for if and only if its own entries for one listing request disjoint nights |
| `ProtocolTheorems.ClashingGeneration` | workers/pws_workers/booking-special-operation-worker/booking_special_operation_worker.py:2256-2268 | A concrete generation, admissible on the empty table, that names one listing twice for the same night and leaves that night unaccounted for |
| `ChainEntries.RepeatedListingIsAccepted` | workers/pws_workers/booking-special-operation-worker/booking_special_operation_worker.py:293-332 | The chain validator accepts a pms followed by one ota listing at two positions, so such a generation can arise |
| `ProtocolTheorems.RunEvolves` | workers/pws_workers/booking-special-operation-worker/booking_special_operation_worker.py:1058-1121 | Over any run a row keeps its identity, its dates only shrink to a non-empty subsequence, `removed` and `failed` are never left, a removal row keeps its dates and is never `applied`, and an override that has not failed covers its former effective dates minus exactly those that successful removals took |
| `ProtocolTheorems.RemovalsAreConfluent` | workers/pws_workers/booking-special-operation-worker/booking_special_operation_worker.py:1073-1106 | Two runs in neither of which the row's own apply failed, and after which the same dates of the row have been successfully removed, leave it with the same effective dates, in original order, whatever the order of callbacks, reservations and failed removals |
| `ProtocolTheorems.RemovalCallbackActsOnce` | workers/pws_workers/booking-special-operation-worker/booking_special_operation_worker.py:2861-2869 | Once a removal callback has acted, no later callback for that row changes the table, however long the run in between |
| `ProtocolTheorems.RedeliveryIsNoop` | workers/pws_workers/booking-special-operation-worker/booking_special_operation_worker.py:2861-2869 | Delivering any callback twice in a row equals delivering it once |
| `ProtocolTheorems.ImmediateReplayIsNoop` | workers/pws_workers/booking-special-operation-worker/booking_special_operation_worker.py:2884-3055 | Rerunning the status transaction at once, as after a crash before its checkpoint, changes nothing |
| `ProtocolTheorems.LateReplayResurrects` | workers/pws_workers/booking-special-operation-worker/booking_special_operation_worker.py:2767-2884 | A concrete case in which the status transaction, replayed after another callback, brings a removed override back: load and update must be one atomic step |
| `ProtocolTheorems.StaleUpdateKeepsFinalIff` | workers/pws_workers/booking-special-operation-worker/booking_special_operation_worker.py:2884-2946 | Run against any later table, the status transaction leaves all removed and failed rows alone if and only if its own row is not final or is final with the very outcome it would write |
| `ProtocolTheorems.LateApplyRedeliveryActs` | workers/pws_workers/booking-special-operation-worker/booking_special_operation_worker.py:597-601 | A concrete case in which a successful apply callback acts, is a no-op when redelivered at once, and acts a second time when redelivered after a reservation |
| `ProtocolTheorems.CallbackActsIff` | workers/pws_workers/booking-special-operation-worker/booking_special_operation_worker.py:2861-2882 | Any callback, first or redelivered, leaves the table as it is if and only if its row is not a matching row still `processing` |
| `ProtocolTheorems.BookingRemovalCompletes` | workers/pws_workers/booking-special-operation-worker/booking_special_operation_worker.py:1455-1530 | If every removal one remove-bso task recorded succeeds, every override of the booking on the property that was `applied` when it planned ends neither `applied` nor `processing`, whatever trims, reservations, failures and crashes happened before, between and after; none of its removals is of a row of another booking or property |
| `ChainSaga.SagaRunKeepsInv` | workers/pws_workers/booking-special-operation-worker/booking_special_operation_worker.py:2884-3170 | Every reachable state of a chain is in one of three phases (running at k, failing at k, rolled back from k), with reruns of status transactions and arbitrary activity outside the chain interleaved |
| `ChainSaga.RerunIsNoop` | workers/pws_workers/booking-special-operation-worker/booking_special_operation_worker.py:2884-3055 | In every such state the status transaction of a settled chain callback, run again because its checkpoint was lost, changes nothing |
| `ChainSaga.ForeignStepIsOutside` | workers/pws_workers/booking-special-operation-worker/booking_special_operation_worker.py:2251-3170 | A protocol step that reserves, records or answers no row of the chain and no removal of one leaves all of them as they are |
| `ChainSaga.SagaPrefixes` | workers/pws_workers/booking-special-operation-worker/booking_special_operation_worker.py:760-794 | While nothing has failed the chain is an applied prefix followed by processing rows; after a failure at k every row from k on is failed and no earlier row is still processing |
| `ChainSaga.RollbacksAreExact` | workers/pws_workers/booking-special-operation-worker/booking_special_operation_worker.py:707-757 | Once rollbacks are recorded, each row before the failed one is the source of exactly one removal row, naming all its dates, however often recording is repeated |
| `ChainSaga.NothingSurvivesRollback` | workers/pws_workers/booking-special-operation-worker/booking_special_operation_worker.py:3057-3170 | When the recorded rollbacks have all succeeded, no row of the failed chain is active |
| `ChainSaga.OutOfOrderAnswerSurvives` | workers/pws_workers/booking-special-operation-worker/booking_special_operation_worker.py:725-727 | A concrete case in which a later position answers before an earlier one fails: it stays applied and no rollback names it, so the dependency edges are needed |
| `ChainSaga.EarlierAnswerSurvives` | workers/pws_workers/booking-special-operation-worker/booking_special_operation_worker.py:720-726 | A concrete case in which position 2 fails while position 1 still waits: nothing is rolled back and position 1 applies afterwards |
| `ChainSaga.ReservedAnswerSurvives` | workers/pws_workers/booking-special-operation-worker/booking_special_operation_worker.py:591-603 | A concrete case in which position 1 has applied but is reserved when position 2 fails: nothing is rolled back, and when the removal it was reserved for fails it is applied again |
| `ChainSaga.FailureIsUndoneIff` | workers/pws_workers/booking-special-operation-worker/booking_special_operation_worker.py:720-794 | After a failed apply every chain row still active is the source of a planned rollback if and only if no earlier row is `processing`, waiting or reserved, no other row at the same position is active and no later row is `applied`; the same equivalence holds of each row by itself |
| `RuleTable.Table.FindOverlaps` | workers/pws_workers/booking-special-operation-worker/booking_special_operation_worker.py:542-588 | Empty dates are the only error; otherwise exactly the rows of the listing that are `applied` or `processing`, no removal, and share a date, by ascending id, each with exactly the dates it shares |
| `RuleTable.Table.ReserveOverlapRows` | workers/pws_workers/booking-special-operation-worker/booking_special_operation_worker.py:591-603 | A row becomes `processing` exactly when its id is given and it is `applied` or `processing`; nothing else changes |
| `RuleTable.Table.PlanGeneration` | workers/pws_workers/booking-special-operation-worker/booking_special_operation_worker.py:2251-2332 | A row becomes `processing` exactly when it is an active override and some plan for its listing shares a night with it, and no other row changes; each such row has exactly one blueprint, by ascending source id, which copies the row and names night d if and only if d is a night of the row that some plan for its listing requests |
| `RuleTable.Table.MergeOverlaps` | workers/pws_workers/booking-special-operation-worker/booking_special_operation_worker.py:2299-2313 | Each source is merged with all the dates its overlaps name; other sources keep theirs |
| `RuleTable.Table.BuildRemovals` | workers/pws_workers/booking-special-operation-worker/booking_special_operation_worker.py:2315-2332 | The loop over the merged sources builds the removal blueprint of every overlapped row, by ascending id |
| `RuleTable.Table.PlanBookingRemoval` | workers/pws_workers/booking-special-operation-worker/booking_special_operation_worker.py:1181-1230 | Each blueprint has as its source an applied override of exactly this booking and property and copies it with all its dates; every such row has exactly one; sources descend |
| `RuleTable.Table.EnsureInstructionRow` | workers/pws_workers/booking-special-operation-worker/booking_special_operation_worker.py:853-917 | The latest row with the identifier if there is one and the table untouched, else one new `processing` row at the end |
| `RuleTable.Table.RecordInstructions` | workers/pws_workers/booking-special-operation-worker/booking_special_operation_worker.py:2364-2377 | Earlier rows stay as they are, the rows added are `processing` rows of the instructions, every instruction has its row, once, and the ids returned are those of rows with its identifier |
| `RuleTable.Table.SetSourceAfterRemoval` | workers/pws_workers/booking-special-operation-worker/booking_special_operation_worker.py:1058-1106 | A source that is `applied` or `processing` loses exactly the removed dates, the rest in order: it becomes `applied` when a date is left, `removed` with its old dates when none is; an inactive or missing source and every other row are untouched |
| `RuleTable.Table.RestoreSourceApplied` | workers/pws_workers/booking-special-operation-worker/booking_special_operation_worker.py:1109-1121 | A source that is `processing` becomes `applied`; any other stays |
| `RuleTable.Table.FetchChainApplyRows` | workers/pws_workers/booking-special-operation-worker/booking_special_operation_worker.py:660-704 | Exactly the override rows of the booking that carry the chain id, by position, those at one position by id |
| `RuleTable.Table.FailPlaced` | workers/pws_workers/booking-special-operation-worker/booking_special_operation_worker.py:775-794 | Exactly the processing rows placed beyond the failed position become `failed`, and exactly those are reported |
| `RuleTable.Table.MarkDependencyFailed` | workers/pws_workers/booking-special-operation-worker/booking_special_operation_worker.py:760-794 | Fails exactly the `processing` override rows of this booking and chain at later positions, and reports exactly those |
| `RuleTable.Table.PrepareRollbackBlueprints` | workers/pws_workers/booking-special-operation-worker/booking_special_operation_worker.py:707-757 | Exactly the applied overrides of the booking's chain before the failed position, each copied in full under the identifier made from chain and source, highest position first and lower id first at one position |
| `RuleTable.Table.HandleInstructionResult` | workers/pws_workers/booking-special-operation-worker/booking_special_operation_worker.py:2767-2946 | Missing row, identifier mismatch, remove-flag mismatch, settled row and update are told apart by the row's fields; an update gives the row the status the callback brings, a successful removal trims its source while that is active, leaving it `applied` when nights remain, a failed removal makes a `processing` source `applied`, a failed apply fails what waits further down its chain, and nothing else changes |
| `RuleMeanings.CallbackMeans` | workers/pws_workers/booking-special-operation-worker/booking_special_operation_worker.py:2884-2946 | What a callback that acts does to every row of the table, written out on the rows' fields, for any table and any source it names |
| `RuleMeanings.TrimmedSource` | workers/pws_workers/booking-special-operation-worker/booking_special_operation_worker.py:1058-1106 | An active source with a night left ends `applied` with exactly the nights not removed, in their order; one without ends `removed` |
| `RuleMeanings.PlanMeans` | workers/pws_workers/booking-special-operation-worker/booking_special_operation_worker.py:2251-2332 | Which rows a generation reserves and what it removes from them, with quantifiers over rows and plans only |
| `RuleMeanings.BookingPlanMeans` | workers/pws_workers/booking-special-operation-worker/booking_special_operation_worker.py:1181-1230 | Which rows a remove-bso task plans removals for, written out on the rows' fields, and that each has exactly one |
| `RuleMeanings.RollbacksMean` | workers/pws_workers/booking-special-operation-worker/booking_special_operation_worker.py:707-757 | Each rollback is of an applied override of the booking's chain before the failed position, in full, in descending position |
| `RuleMeanings.AllRollbacks` | workers/pws_workers/booking-special-operation-worker/booking_special_operation_worker.py:717-726 | Every such override is rolled back |
| `RuleMeanings.GenerationStepMeans` | workers/pws_workers/booking-special-operation-worker/booking_special_operation_worker.py:2251-2355 | The generation step of the protocol reserves exactly the rows its plans meet and checkpoints the removals of exactly the nights they request |
| `RuleMeanings.RollbackStepMeans` | workers/pws_workers/booking-special-operation-worker/booking_special_operation_worker.py:3064-3113 | The rollback step checkpoints full removals of exactly the applied overrides before the failed row in the chain of its booking |
| `Collections.SortIsStable` | workers/pws_workers/booking-special-operation-worker/booking_special_operation_worker.py:704 | Sorting leaves two elements already in order in that order, ties included, as Python's `sorted` does |
| `RuleTable.MergeStep` | workers/pws_workers/booking-special-operation-worker/booking_special_operation_worker.py:2302-2313 | Merging one more plan keeps the merge naming precisely the dates that the plans so far request of each row |
| `GenerationPlan.OverlapsAreRemoved` | workers/pws_workers/booking-special-operation-worker/booking_special_operation_worker.py:2302-2332 | Every source an apply overlapped has a removal in the checkpointed plan |
| `GenerationPlan.CheckpointedPlanIsOk` | workers/pws_workers/booking-special-operation-worker/booking_special_operation_worker.py:2343-2355 | The checkpointed plan has one removal per source, one identifier per instruction, applies in chain order and a removal for every overlap |
| `GenerationPlan.PlannedOverlaps` | workers/pws_workers/booking-special-operation-worker/booking_special_operation_worker.py:2256-2313 | The overlaps an apply is planned with are exactly the active overrides of its listing that share a night with it |
| `DispatchHandler.Handler.RunToCompletion` | workers/pws_workers/booking-special-operation-worker/booking_special_operation_worker.py:2504-2654 | From the plan checkpoint, any number of crashes between any two effects followed by one undisturbed attempt leaves the rows that recording removals and then applies once gives, the queue as it was followed by one task for each of capture, removals and applies in that order, exactly the prescribed dependencies, and nothing else |
| `QueueOrder.NewTasksAreThePlans` | workers/pws_workers/booking-special-operation-worker/booking_special_operation_worker.py:2451-2654 | Own tasks added in plan order to a queue that had none are exactly one for each subject of the plan, in plan order |
| `QueueOrder.FinishedQueuesAgree` | workers/pws_workers/booking-special-operation-worker/booking_special_operation_worker.py:2451-2654 | Any two finished queues over the same rows, whatever the crashes, agree task by task in subject, row id and dependencies |
| `DispatchHandler.Handler.Attempt` | workers/pws_workers/booking-special-operation-worker/booking_special_operation_worker.py:2357-2654 | An attempt that crashes after any number of effects keeps the progress invariant and adds only planned rows and own tasks; one with enough effects left completes the delivery |
| `DispatchHandler.Handler.Interleave` | workers/pws_workers/booking-special-operation-worker/booking_special_operation_worker.py:2357-2654 | Whatever other tasks and callbacks do to the tables between attempts, the progress made so far stays valid |
| `DispatchHandler.Handler.ResumeRemovals` | workers/pws_workers/booking-special-operation-worker/booking_special_operation_worker.py:2509-2526 | Resuming after the cursor, every earlier removal has its task and dependencies and the map from sources to tasks is rebuilt |
| `DispatchHandler.Handler.ProcessRemoval` | workers/pws_workers/booking-special-operation-worker/booking_special_operation_worker.py:2528-2561 | One removal gets its single task, waiting for the capture, before the cursor moves past it; a task enqueued but not yet reported still gets its dependency on the next attempt |
| `DispatchHandler.Handler.EnqueueRemovals` | workers/pws_workers/booking-special-operation-worker/booking_special_operation_worker.py:2504-2583 | All removals end with one task each, and the source-to-task map checkpointed is complete |
| `DispatchHandler.Handler.EnqueueApply` | workers/pws_workers/booking-special-operation-worker/booking_special_operation_worker.py:2607-2638 | One apply gets its single task with exactly capture, overlapped removals and chain predecessor as dependencies |
| `DispatchHandler.Handler.FindExternalTask` | workers/pws_workers/booking-special-operation-worker/booking_special_operation_worker.py:927-950 | The search by row id and identifier finds exactly the task that works on the instruction |
| `DispatchHandler.Handler.EnqueueCapture` | workers/pws_workers/booking-special-operation-worker/booking_special_operation_worker.py:2451-2500 | One capture task per handler run, found again after a crash |
| `DispatchHandler.EnvironmentKeepsProgress` | workers/pws_workers/booking-special-operation-worker/booking_special_operation_worker.py:2357-2654 | Rows trimmed or added by others and tasks added by others do not disturb the handler's durable progress |
| `DispatchPlan.CaptureRunsFirst` | workers/pws_workers/booking-special-operation-worker/booking_special_operation_worker.py:2546-2555 | In every execution that respects the edges, complete or cut short, the base-rate capture runs before each task of the generation that runs |
| `DispatchPlan.RemovalRunsBeforeApply` | workers/pws_workers/booking-special-operation-worker/booking_special_operation_worker.py:2626-2636 | In every such execution the removal of each overlapped source runs before an apply that overlapped it, if that apply runs |
| `DispatchPlan.AppliesRunInChainOrder` | workers/pws_workers/booking-special-operation-worker/booking_special_operation_worker.py:2603-2638 | In every such execution an apply that runs does so after every apply at an earlier chain position |
| `DispatchPlan.ApplyWaitsFor` | workers/pws_workers/booking-special-operation-worker/booking_special_operation_worker.py:2607-2638 | The task of an apply depends on exactly the capture task, the removal tasks of the sources it overlaps and the task of the apply before it |
| `DispatchPlan.RemovalWaitsFor` | workers/pws_workers/booking-special-operation-worker/booking_special_operation_worker.py:2528-2561 | The task of a removal depends on exactly the capture task |
| `DispatchPlan.RankIsUnique` | workers/pws_workers/booking-special-operation-worker/booking_special_operation_worker.py:2546-2638 | Every task of a plan has one place in it: capture, removals, then applies by position |
| `DispatchPlan.DependenciesLowerRank` | workers/pws_workers/booking-special-operation-worker/booking_special_operation_worker.py:2546-2638 | The dependency graph has no cycle: every dependency of an own task is an own task of strictly lower rank |
| `Settlement.DeliveredHasEnded` | schemas/secure_task_scheduler_dependencies.sql:467-509 | Once a delivered generation's tasks have all ended, every one of its instructions has a task whose end the rows below speak of |
| `Settlement.RemovalRunsIff` | schemas/secure_task_scheduler_dependencies.sql:161-201 | A removal runs if and only if the base-rate capture completed |
| `Settlement.ApplyRunsIff` | schemas/secure_task_scheduler_dependencies.sql:161-201 | An apply runs if and only if the capture, the removals of the sources it overlapped and the apply before it completed |
| `Settlement.ApplySettlesIff` | workers/pws_workers/external-services-worker/external_services_worker.py:3083-3159 | An apply row is settled if and only if it comes before the first apply that did not complete or that one answered `failed` |
| `Settlement.GenerationSettlesIff` | schemas/secure_task_scheduler_dependencies.sql:467-509 | Every row of a generation settles if and only if the capture completed, no removal was lost, and the first apply that did not complete, if any, waited for completed removals only and was not lost |
| `Settlement.StuckChain` | schemas/secure_task_scheduler_dependencies.sql:187-197 | If the first apply that did not complete never ran, its row and all later ones stay `processing` while all earlier ones have completed |
| `Resume.PendingAfterCursor` | workers/pws_workers/booking-special-operation-worker/booking_special_operation_worker.py:1006-1022 | The items after the first one whose key is the cursor, and how many were skipped; none when the cursor is unknown, all when there is none |
| `RollbackHandler.Handler.RunToCompletion` | workers/pws_workers/booking-special-operation-worker/booking_special_operation_worker.py:3115-3200 | However often the rollback step crashes, an attempt left alone leaves the rows that recording the plan once gives and one task per rollback, chained in plan order, and adds or changes nothing else in the tables |
| `RollbackHandler.Handler.Attempt` | workers/pws_workers/booking-special-operation-worker/booking_special_operation_worker.py:3115-3200 | An attempt that crashes anywhere keeps the rollback progress invariant and adds only planned rows and own tasks; with enough effects it finishes |
| `RollbackHandler.Handler.Interleave` | workers/pws_workers/booking-special-operation-worker/booking_special_operation_worker.py:3115-3200 | Whatever other tasks and callbacks do to the tables between attempts, the progress of the rollback step stays valid |
| `RollbackHandler.AroundKeepsProgress` | workers/pws_workers/booking-special-operation-worker/booking_special_operation_worker.py:3115-3200 | Rows trimmed or added by others and tasks added by others do not disturb the rollback step's durable progress |
| `RollbackHandler.Handler.EnqueueOne` | workers/pws_workers/booking-special-operation-worker/booking_special_operation_worker.py:3148-3170 | One rollback gets its single task, waiting for exactly the rollback before it |
| `RollbackHandler.RollbacksRunBackwards` | workers/pws_workers/booking-special-operation-worker/booking_special_operation_worker.py:3148-3170 | In every execution that respects the edges, complete or cut short, a rollback that runs does so after every rollback planned before it |
| `RollbackHandler.RollbackWaitsFor` | workers/pws_workers/booking-special-operation-worker/booking_special_operation_worker.py:3148-3170 | The task of a rollback depends on exactly the task of the rollback planned just before it |
| `RollbackHandler.PlannedRollbacksDescend` | workers/pws_workers/booking-special-operation-worker/booking_special_operation_worker.py:726 | A rollback plan goes strictly down the chain |
| `RollbackHandler.RollbacksRunDownTheChain` | workers/pws_workers/booking-special-operation-worker/booking_special_operation_worker.py:3148-3170 | In every such execution a rollback that runs does so after the rollback of every strictly higher chain position |
| `RollbackHandler.RollbackUuidsNeverCollide` | workers/pws_workers/booking-special-operation-worker/booking_special_operation_worker.py:656-657 | The deterministic identifiers of one rollback plan are pairwise distinct |
| `Settlement.RollbacksSettleIff` | schemas/secure_task_scheduler_dependencies.sql:161-201 | Every rollback row is answered if and only if all rollbacks but the last completed and the last was not lost |
| `HandlerRuns.AttemptIsARun` | workers/pws_workers/booking-special-operation-worker/booking_special_operation_worker.py:2357-2447 | The rows an attempt of the generation handler leaves behind, cut short anywhere, are those of a run of the protocol that agrees with its checkpoints |
| `HandlerRuns.AttemptKeepsInv` | workers/pws_workers/booking-special-operation-worker/booking_special_operation_worker.py:2357-2447 | Hence the invariant of the protocol holds wherever such an attempt crashes |
| `HandlerRuns.RollbackAttemptIsARun` | workers/pws_workers/booking-special-operation-worker/booking_special_operation_worker.py:3115-3146 | The rows an attempt of the rollback step leaves behind are those of a run of the protocol, which keeps the invariant |
| `HandlerRuns.PlanningIsTracked` | workers/pws_workers/booking-special-operation-worker/booking_special_operation_worker.py:2343-2355 | The protocol step that checkpoints a generation leaves the protocol exactly where its handler starts |
| `HandlerRuns.PlanningKeepsUuids` | workers/pws_workers/booking-special-operation-worker/booking_special_operation_worker.py:2324-2355 | Planning a generation draws identifiers that no row and no other task uses |
| `HandlerRuns.OthersRunIsAround` | workers/pws_workers/booking-special-operation-worker/booking_special_operation_worker.py:2357-2654 | Any run of the protocol for other tasks changes the rows only in ways the handler's next attempt puts up with |
| `ChainEntries.ValidatorIsExact` | workers/pws_workers/booking-special-operation-worker/booking_special_operation_worker.py:293-332 | Accepts exactly the entry lists that some arrangement turns into one chain numbered from 1, of the shape dpt? pms ota*, each stated dependency the previous position; the result is that arrangement with dependencies filled in |
| `ChainEntries.AcceptedDependencies` | workers/pws_workers/booking-special-operation-worker/booking_special_operation_worker.py:322-332 | In an accepted chain item i stands at position i + 1 and depends on the position before it, the first on none |
| `ChainEntries.SortingErrors` | workers/pws_workers/booking-special-operation-worker/booking_special_operation_worker.py:293-308 | When exactly the entries are refused as empty, as of several chains, or as not numbered 1, 2, 3 and so on |
| `ChainEntries.ShapeErrors` | workers/pws_workers/booking-special-operation-worker/booking_special_operation_worker.py:310-320 | When exactly one numbered chain is refused for not having one pms step or for its order |
| `ChainEntries.DependencyError` | workers/pws_workers/booking-special-operation-worker/booking_special_operation_worker.py:322-332 | When exactly a well-ordered chain is refused for a stated dependency, and that the first such item is named |
| `ChainEntries.ValidatorForgetsOrder` | workers/pws_workers/booking-special-operation-worker/booking_special_operation_worker.py:293-332 | Verdict, error and result are the same for every permutation of the entries |
| `ChainEntries.ValidatorIsIdempotent` | workers/pws_workers/booking-special-operation-worker/booking_special_operation_worker.py:293-332 | Validating a validated chain returns it unchanged |
| `ChainEntries.ValidateAndOrder` | workers/pws_workers/booking-special-operation-worker/booking_special_operation_worker.py:293-332 | The loops with their early exits compute the specified verdict, first error included |
| `ChainEntries.FillDependencies` | workers/pws_workers/booking-special-operation-worker/booking_special_operation_worker.py:315-332 | Writing dependencies item by item yields the first wrong dependency or the list with every dependency set to the previous position |
| `Topology.OrderPairsByTopology` | workers/pws_workers/property-platform-worker/property_platform_worker.py:252-305 | Accepts exactly a canonical listing typed pms or untyped with at least one linked pair, all typed dpt or ota and at most one dpt; the result is the dpt, the canonical listing as pms, then the otas by ascending platform id and listing text, with no pair lost or added |
| `Topology.PartitionByType` | workers/pws_workers/property-platform-worker/property_platform_worker.py:270-296 | Splits the linked pairs into dpt and ota pairs in arrival order, or reports the first pair that fits neither |
| `Topology.ErrorMeans` | workers/pws_workers/property-platform-worker/property_platform_worker.py:270-296 | The error is that of the first pair typed neither dpt nor ota, and says whether its type is missing, pms or another |
| `Topology.OrderMeans` | workers/pws_workers/property-platform-worker/property_platform_worker.py:298-305 | Shape and ascending order of an accepted arrangement, written out on the pairs' fields |
| `Topology.TypeMeans` | workers/pws_workers/property-platform-worker/property_platform_worker.py:238-245 | A type is absent exactly for nothing but white space; else it is the trimmed text in lower case, ota for otp |
| `Topology.StringLeMeans` | workers/pws_workers/property-platform-worker/property_platform_worker.py:248-249 | Listing texts are ordered by the first character in which they differ, a prefix first |
| `Topology.OrderForgetsArrival` | workers/pws_workers/property-platform-worker/property_platform_worker.py:252-305 | With distinct listings an accepted order is the same for every permutation of the linked pairs |
| `Topology.FindCanonical` | workers/pws_workers/property-platform-worker/property_platform_worker.py:477-497 | The first pair of the canonical listing, or none exactly when no pair is that listing |
| `Topology.CollectLinked` | workers/pws_workers/property-platform-worker/property_platform_worker.py:502-511 | Exactly the pairs of other listings, in the order given |
| `Topology.LinkedPairsMean` | workers/pws_workers/property-platform-worker/property_platform_worker.py:502-511 | Each pair of another listing is collected as often as it occurs, none of the canonical listing, in the order given |
| `Topology.SortedTypesAgree` | workers/pws_workers/property-platform-worker/property_platform_worker.py:302-304 | Pairs of one type are sorted the same way for every arrival order, since no two different listings tie |
| `ChainPipeline.BuildDispatchPlan` | workers/pws_workers/pricing-engine-worker/pricing_engine_worker.py:1126-1183 | A pair with a rule of its own is planned with exactly that rule and no fallback, a linked pair without one with the canonical listing's rule as a fallback if that listing is among the pairs and has one, every other pair is skipped; items and skipped platforms keep the order of the pairs; item k stands at position k + 1, waits for position k and carries chain id, canonical flag and type |
| `ChainPipeline.MatchPairs` | workers/pws_workers/pricing-engine-worker/pricing_engine_worker.py:1147-1173 | Pair by pair: its own rule directly, else for a linked pair the canonical rule as a fallback, else skipped; matches and skips each in the order of the pairs and none besides |
| `ChainPipeline.MatchesMean` | workers/pws_workers/pricing-engine-worker/pricing_engine_worker.py:1147-1173 | The matches and skips of a list of pairs, written out on rules and pairs |
| `ChainPipeline.ForwardListings` | workers/pws_workers/pricing-engine-worker/pricing_engine_worker.py:1315-1355 | Exactly the items with a category are forwarded, in order; each keeps pair, rule and stated values, a missing position becomes its index, a missing dependency the position before, a blank chain id the fallback, a missing type pms or ota by the canonical flag |
| `ChainPipeline.PlanIsPlain` | workers/pws_workers/pricing-engine-worker/pricing_engine_worker.py:1143-1183 | Every item the pricing engine plans for ordered listings already has all that forwarding would complete |
| `ChainPipeline.PlainPlanIsRead` | workers/pws_workers/pricing-engine-worker/pricing_engine_worker.py:1315-1355 | Forwarding such a plan and reading it in the BSO worker drops nothing and changes nothing |
| `ChainPipeline.NormalizeLinkedListings` | workers/pws_workers/booking-special-operation-worker/booking_special_operation_worker.py:126-196 | Rejects the first malformed entry with its index and the first thing wrong with it, pair and rule objects included, else hands the normalized entries to the validator |
| `ChainPipeline.ReceiveMeans` | workers/pws_workers/booking-special-operation-worker/booking_special_operation_worker.py:126-196 | An entry reported as bad is the first that cannot be used; if all can, the answer is the validator's on exactly what the entries say |
| `ChainPipeline.EntryMeans` | workers/pws_workers/booking-special-operation-worker/booking_special_operation_worker.py:126-167 | Which entries can be used and what each says: ids and texts trimmed, the listing id before the older property id |
| `ChainPipeline.TextMeans` | workers/pws_workers/shared/runtime.py:234-240 | An optional text is absent exactly when it is nothing but white space, else it is what stands between its first and last other character |
| `ChainPipeline.PipelineAcceptance` | workers/pws_workers/pricing-engine-worker/pricing_engine_worker.py:1143-1183 | For every topology the ordering step accepts, the chain planned and forwarded is accepted by the BSO worker, and unchanged, if and only if the canonical listing has a rule; then no listing is skipped |
| `ChainPipeline.PipelineForgetsArrival` | workers/pws_workers/pricing-engine-worker/pricing_engine_worker.py:1175-1183 | With distinct listings the whole plan is the same for every permutation of the linked pairs |
| `LookupComponents.BuildComponents` | fastapi/main.py:2819-2855 | Every id listed or linked to is numbered, two ids have the same number exactly when they are connected by links in either direction, and components are numbered in insertion order |
| `LookupComponents.FillComponent` | fastapi/main.py:2843-2854 | The stack loop terminates although the stack may hold an id twice, and numbers only ids connected to its root, leaving a closed component |
| `LookupComponents.BuildAdjacency` | fastapi/main.py:2820-2838 | The adjacency sets are exactly the undirected link graph, keyed by every listed or linked id in insertion order |
| `LookupComponents.NumberingIsUnique` | fastapi/main.py:2839-2855 | The numbering is determined by the rows, so computing it a second time gives the same numbers |
| `LookupComponents.BuildChainTails` | fastapi/main.py:2858-2875 | For some correct numbering, each component with a listed id that nothing links to gets one such id, and no component gets any other id |
| `ListingLinks.LookupTable.Link` | fastapi/main.py:5519-5599 | Answers the tail attached to, or the first error in the order of the checks; on success only the pointer of the source changes and the two chains become target chain ++ source chain; on error nothing changes |
| `ListingLinks.LookupTable.Unlink` | fastapi/main.py:5602-5633 | Missing listing, head and linked listing are told apart; a linked one is cut off, splitting its chain just before it, and everything else stays |
| `ListingLinks.LookupTable.FindTail` | fastapi/main.py:5543-5584 | The component and tail computations decide same chain, missing tail and same platform exactly as the chains do; the two internal errors for an unresolved component or tail never occur |
| `ListingLinks.LinkOutcomeMeans` | fastapi/main.py:5519-5599 | Each refusal of a link has its own exact condition on listings and chains; a link is accepted, with the tail of the target's chain, exactly when none of them holds |
| `ListingLinks.LookupTable.FetchLinkedRows` | fastapi/main.py:2770-2816 | Exactly the rows of the property of the listing, none when the listing does not exist |
| `ListingLinks.LinkConcatenates` | fastapi/main.py:5585-5592 | Linking turns chains T and S into T ++ S and leaves a disjoint family of chains |
| `ListingLinks.UnlinkSplits` | fastapi/main.py:5619-5632 | Unlinking cuts one chain in two and leaves a disjoint family of chains |
| `ListingLinks.RunKeepsChains` | fastapi/main.py:5508-5633 | After any sequence of links and unlinks the pointers form disjoint chains over the same listings |
| `ListingLinks.ChainsAreUnique` | fastapi/main.py:2858-2875 | A pointer store represents at most one family of chains |
| `ListingLinks.AtMostOneIncoming` | fastapi/main.py:5585-5592 | No two listings point to the same listing |
| `ListingLinks.NoCycles` | fastapi/main.py:5543-5564 | Following pointers never comes back to where it started |
| `ListingLinks.OneHeadOneTail` | fastapi/main.py:2858-2875 | Each chain has exactly one listing without a pointer and exactly one listing nothing points to, its two ends |
| `ListingLinks.ConnectedIsSameChain` | fastapi/main.py:2819-2855 | Two listings of a property are connected in the link graph if and only if they share a chain |
| `ListingLinks.ComputedTail` | fastapi/main.py:2858-2875 | The tail computed for the component of a listing is the last listing of its chain |
| `ListingLinks.LinkThenUnlink` | fastapi/main.py:5508-5633 | Linking and then unlinking the source restores pointers and chains |
| `ListingLinks.UnlinkThenRelink` | fastapi/main.py:5602-5633 | After unlinking, linking to any listing formerly above it is refused if and only if the two share a platform, and otherwise restores pointers and chains |
| `ListingLinks.RelinkToParent` | fastapi/main.py:5602-5633 | Relinking to the former parent is always accepted and restores the chains |
| `ListingLinks.UnlinkedListings` | fastapi/main.py:5508-5633 | Listings without pointers form chains of one |
| `Registration.Registrar.Register` | workers/pws_workers/bookings-worker/bookings_worker.py:1885-1911 | However often and wherever registration of a page crashes, a pass that finishes leaves exactly the register one clean pass leaves, repeated booking ids included |
| `Registration.Registrar.Attempt` | workers/pws_workers/bookings-worker/bookings_worker.py:1885-1911 | A crash after any effect, also between an upsert and its progress report, leaves a state from which resuming still ends in the clean result |
| `Registration.GoingBackIsHarmless` | workers/pws_workers/bookings-worker/bookings_worker.py:358-376 | If finishing from row i gives the clean result, so does going back to any earlier row, as a cursor naming a repeated booking does |
| `Registration.WrittenForgets` | workers/pws_workers/bookings-worker/bookings_worker.py:1096-1124 | A field some row writes ends the same whatever was stored before |
| `Registration.UnwrittenStays` | workers/pws_workers/bookings-worker/bookings_worker.py:1096-1124 | A field no row writes keeps its stored value |
| `Registration.PrepareRows` | workers/pws_workers/bookings-worker/bookings_worker.py:1003-1093 | Succeeds if and only if no item is rejected; then row k records the k-th item that is a dated booking in focus with guest, listing and thread ids: its id, cancelled flag and each field as read; rows plus blocks plus out-of-focus items equals items received; otherwise the first rejected item and its error are reported |
| `Registration.JudgeMeans` | workers/pws_workers/bookings-worker/bookings_worker.py:1014-1060 | When an item is a block, out of focus or kept, on the values read off it, and what its row holds |
| `Registration.InFocusIff` | workers/pws_workers/bookings-worker/bookings_worker.py:352-355 | For a window that does not end before it starts, a stay is in focus if and only if one of its nights is |
| `Registration.RegisterPage` | workers/pws_workers/bookings-worker/bookings_worker.py:1841-1911 | From the page to the register, through any crashes: refused with the first wrong item, else the entry of every booking kept holds arrival, departure, guest, listing, threads, status and the other values of the last item kept for it, and every other booking has the entry it had |
| `Registration.LastKeptWins` | workers/pws_workers/bookings-worker/bookings_worker.py:1885-1911 | The entry of a booking holds the values of the last item kept for it, whatever was stored or written before |
| `Registration.OthersStay` | workers/pws_workers/bookings-worker/bookings_worker.py:1885-1911 | A booking for which no item is kept has exactly the entry it had |
| `Registration.VerdictsAddUp` | workers/pws_workers/bookings-worker/bookings_worker.py:1003-1093 | Among items none of which is rejected, every one is kept, a block or out of focus |
| `Seeding.ManifestIsSeeded` | workers/pws_workers/worker_manager.py:1454-1589 | For a manifest whose schedules have a known pattern and time and timezone together or not at all, no time on an hourly one: seeding completes, every schedule of every worker (the older single one when it lists none) and every startup task has a task pending, scheduled, processing or retrying under its own fields, no key has its active task doubled, and a second pass creates nothing |
| `Seeding.OnlyAskedForIsAdded` | workers/pws_workers/worker_manager.py:1469-1589 | A pass keeps all tasks there are and adds only pending tasks of a worker's schedules, their first immediate runs and startup tasks |
| `Seeding.WantsMean` | workers/pws_workers/worker_manager.py:1471-1474 | What a manifest asks for: one task per schedule, the older single schedule only when none is listed, and the startup task |
| `Seeding.TaskQueue.EnsureManifestSeeds` | workers/pws_workers/worker_manager.py:1469-1589 | The nested loops add exactly the specified tasks, stop at the first one the scheduler refuses, and report one result per task asked for |
| `Seeding.TaskQueue.SeedOne` | workers/pws_workers/worker_manager.py:1475-1545 | Creates nothing when a live task is found under the key searched for, else the task and, when asked for and none is live, one immediate run; reports which |
| `Seeding.TaskQueue.HasActiveScanTask` | workers/pws_workers/worker_manager.py:1367-1404 | Finds exactly an active task with the searched key |
| `Seeding.CompletedPassCovers` | workers/pws_workers/worker_manager.py:1469-1589 | A completed pass leaves an active task under every searched key |
| `Seeding.PassKeepsAtMostOne` | workers/pws_workers/worker_manager.py:1469-1589 | No pass, completed or refused half-way, creates a second active task of any key |
| `Seeding.CoveredPassAddsNothing` | workers/pws_workers/worker_manager.py:1475-1505 | A pass completes without adding anything if and only if every searched key is active already |
| `Seeding.SecondPassCreatesNothing` | workers/pws_workers/worker_manager.py:1454-1589 | A second pass over unchanged statuses leaves the queue as it is |
| `Seeding.SearchedIsOwnKey` | workers/pws_workers/worker_manager.py:1378-1387 | The key searched for is the key asked for if and only if time and timezone are given together |
| `Seeding.HalfATimeIsMistaken` | workers/pws_workers/worker_manager.py:1379-1383 | A concrete schedule with a time but no timezone that the cited search takes as seeded by another task; the manifest parser refuses it (line 258), so only an unparsed schedule could show it |
| `DollarQuote.Quote` | scripts/build_message_seed.py:19-23 | Terminates with the literal for the shortest lengthening of the tag whose delimiter does not occur in the body |
| `DollarQuote.ChosenMeans` | scripts/build_message_seed.py:19-23 | The literal is the body between two copies of the first of $tag$, $tagX$, $tagXX$ and so on that does not occur in it |
| `DollarQuote.RoundTripIff` | scripts/build_message_seed.py:19-23 | Reading the literal up to the first closing delimiter gives back exactly the body, whatever follows, if and only if the body does not end in a dollar and the chosen tag |
| `DollarQuote.ReadBack` | scripts/build_message_seed.py:19-23 | What the reader returns in either case: the body, or the body without its trailing dollar and tag |
| `DollarQuote.DelimiterOverlap` | scripts/build_message_seed.py:21-23 | A delimiter overlaps a shifted copy of itself only in its last dollar |
| `DollarQuote.DollarTagBodyIsCut` | scripts/build_message_seed.py:19-23 | The concrete body $MSG is read back empty |

## Left out

- SQL text, psycopg connections, advisory locks, JSON encoding, logging, HTTP and authentication: the statements are modelled by their effect on the tables.
- Booking metadata patches, scan flags and cancellation metadata written beside a status update: they do not influence the instruction table.
- `handle_potential_extension`: the single-listing form of the generation that is modelled; it adds no step the chain generation does not have.
- Rule selection, rule operations, target rate types and the date-window arithmetic: the model takes the selected rule and the list of distinct dates as given.
- Topology.OrderPairsByTopology: trims and lower-cases ASCII only, because Python's Unicode case tables would add nothing to the order; the dictionary fields it copies along are not modelled.
- DispatchHandler.Handler.RunToCompletion: starts at the plan checkpoint; before it a repeated attempt draws new identifiers, which the protocol steps cover. Every enqueue is taken to return a task identifier. The number of effects before a crash is a parameter, and failures the worker retries are crashes.
- Registration.Registrar.Register: one page of one platform; the stay metrics the database derives from the merged row and the generated entry ids are not modelled, since they are functions of what is.
- Registration.PrepareRows: takes the values read off an item as given, missing or malformed; the text parsing of dates, numbers and cancelled statuses is not modelled.
- Seeding.TaskQueue.EnsureManifestSeeds: payload contents and limits are not modelled, since the search for an active task ignores them; queue registration and manifest parsing are left out.
- ListingLinks.LookupTable.Link: one request at a time; the import path that links listings through SQL functions is not part of this model.
- ListingLinks.LookupTable.FetchLinkedRows: gives the rows in no particular order, where the query sorts them by platform name; the answers proved do not depend on the order.
- Manifest parsing: it already refuses a schedule with half a time of day, so a parsed manifest meets the condition of `Seeding.ManifestIsSeeded`.
- DollarQuote.RoundTripIff: the tag given must not contain a dollar, as the default tag and PostgreSQL's rule for tags have it.
- Message handling, provider clients, schedulers, process supervision and the remaining workers: thin layers over libraries and tables without a protocol of their own.
