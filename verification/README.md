# PoundCake in Dafny: the dish protocol, the order lifecycle, the rule editor

PoundCake turns an alert into an *order*, an order into *dishes*, and a dish into runtime *rows*
grouped in buckets `(depth, parallel_group)`. Cook's advance calls, the expediter-runner and the
Timer all change the same rows, and nothing but the row's own columns keeps them apart. Above the
rows stand the order with its firing and resolving phases and the recurring tasks that inject
orders. Beside them stands the editor of Git-backed alert-rule documents. This project models these
parts and proves what holds over every input or every run.

| file | models |
|---|---|
| `Ordering.dfy`, `Text.dfy` | sort keys and sorting; strip, lower, decimal numbers |
| `Contract.dfy`, `Execution.dfy` | JSON outcomes, the outcome contract, statuses, verdicts, runner receipts |
| `Rows.dfy`, `DishIngredient.dfy` | one runtime row: dispatch, claims, releases, reconciles; as functions, and field by field as the endpoints write them |
| `RowTheorems.dfy` | what a row keeps of each request: leases, handover, the answers of the runner and the Timer |
| `Segments.dfy`, `Cook.dfy` | the segment scheduler; one advance call, its dispatch loop and its terminal state |
| `Collapse.dfy`, `Timer.dfy` | the status view; the Timer's sweep with its cascade of cancels |
| `Protocol.dfy`, `DishTheorems.dfy` | all processes at once as a state machine; its invariant and the theorems over runs |
| `Runs.dfy` | concrete runs of the protocol, built step by step |
| `FailStop.dfy`, `Finalization.dfy` | exactly when a blocking failure stops the dish; exactly when a finalizing decision closes it |
| `Drain.dfy` | how many sweeps a dish needs |
| `Orders.dfy`, `OrderOutcomes.dfy` | the order lifecycle; what an order records of its dishes and notifications |
| `Tasks.dfy`, `TaskTimes.dfy` | recurring tasks; when they are claimed |
| `Documents.dfy`, `RuleEditor.dfy`, `RuleTheorems.dfy` | parsed rule documents; upsert and delete; their algebra |
| `RuleIndex.dfy`, `RuleRender.dfy` | indexing, rendering, the round trip between them |
| `RuleEffects.dfy` | the fields an edit leaves alone, and where the edited rule is found again |

How to read the state machine. One action is one committed transaction. An advance call opens with a
`Snapshot` that it keeps for good; each of its `Swap` actions is one compare-and-swap, and any other
action may come between two of them, so stale reads interleave with everything. A runner keeps the
row it read when it claimed it, and a `TimerReport` carries any row its sender may have seen, however
old. A refused request leaves the row as it was. Times are microseconds; the clock never goes back. A
theorem about runs quantifies over every sequence of actions from seeded rows: ids are distinct, the
rows are pending and every row names a service.

Code that updates in place is written as classes and methods with the source's loops, each proved
against a function; the functions carry the theorems. Lemmas are marked `{:induction false}`, so
every induction is written out.

## Where the code differs from what one expects

The code is modelled as it is. Each of these has an exact condition or a concrete run.

- A finalizing decision does not close every dish. In every dish where some bucket holds a row whose
  failure is not tolerated ahead of another row, there is a run in which a row is started after a call
  has decided to finalize; in every other dish there is none (`Finalization.FinalizationSealsExactly`,
  an if-and-only-if read off the seeded rows).
- A dish can be finalized with the status `processing`: when the id-order scan meets a pending row of
  the failed bucket first (`Cook.FinalizedAsProcessing`, an if-and-only-if on the rows; a run from
  seeded rows is `Finalization.FinalizedAsProcessingFromSeeded`). Every later sweep repeats it
  (`Timer.SweepRepeats`).
- Fail-stop needs failures that are not judged otherwise. Whether it can break is read off the expected
  outcome before the dish is cooked: it holds in every run exactly when no success can miss the
  expectation (`FailStop.FailStopExactly`, `Execution.AcceptsEverySuccessMeaning`).
- A replay of a terminal reconcile is not always a no-op that succeeds: when the verdict moved the
  status away from the requested one, the replay is refused (`Rows.ReplayIsHarmless`).
- An order that fires again while its resolving dish is live can be told to wait for a firing dish whose
  finalization then asks for nothing; the order ends with its remediation pending
  (`Orders.RefiringLosesWakeup`, with the exact condition in `Orders.WaitingIsAnsweredExactly`). A
  resolved notification reopens finished orders (`Orders.StatusOnlyMovesUp`), which then end once more
  (`Orders.ReopenedEndsTwice`).
- An upsert discards the rules of a document of another kind and can bring hidden rules of an unnamed
  `rules` document to light (`RuleTheorems.UpsertKeepsTheRestExactly`). It is idempotent only when the
  payload bears the name it is filed under (`RuleTheorems.UpsertIdempotentExactly`).

## Model

| member | source | states |
|---|---|---|
| Protocol.BucketBarrier | api/api/cook.py:278-448 | In every state reachable by concurrent advance calls, runner, Timer, claims and releases: once a row has started, every row of a strictly smaller bucket is terminal, although each call dispatches from its own stale snapshot; terminal rows stay terminal and a start time never changes |
| Protocol.InvKept | api/api/dishes.py:1050-1309 | Every single transaction keeps the protocol invariant: barrier, leases only on running rows, receipts of the row itself, calls behind the barrier |
| DishTheorems.DispatchedByOneCall | api/api/cook.py:414-448 | Over a whole run a started row was dispatched by exactly one advance call and an unstarted row by none |
| FailStop.FailuresStopTheDish | kitchen/execution_segments.py:106-151 | Fail-stop for any expected outcome: in every run in which a row is never done, no row of a later bucket is started and no call means to start one |
| FailStop.CascadeNeverOvertaken | kitchen/timer.py:348-401 | In such a run a cascade cancel of a row behind finds it unstarted whenever it arrives, and leaves it terminal |
| FailStop.FrozenFailuresStopTheDish | api/plugins/state.py:187-208 | A blocking failure with no expected outcome, or a canceled row, is one for good: nothing behind it starts in any continuation |
| FailStop.FailStopExactly | api/plugins/state.py:187-208 | For any seeded dish and row: in every run a blocking failure of the row has nothing started behind it, if and only if no row is behind it, its failure is tolerated, or its expectation accepts every success |
| FailStop.RejudgedFailureLeaks | api/api/dishes.py:1280-1309 | The run that breaks it, in every other dish: the row succeeds, a later row starts, a second worker's success misses the expectation |
| Execution.AcceptsEverySuccessMeaning | api/plugins/contract.py:147-208 | The four forms of expectation that every object outcome of a succeeded step meets, and no others |
| Finalization.FinalizationSealsExactly | api/api/cook.py:278-448 | For every seeded dish: in every run nothing is started after any call has decided to finalize, if and only if no bucket holds a row whose failure is not tolerated ahead of another row |
| Finalization.FinalizedWhileDispatching | api/api/cook.py:278-448 | The run in every other dish: the row fails while its call still means to start the next one, the Timer cancels what is behind, a second call decides to finalize, and the first call starts that next row |
| Finalization.FinalizedAsProcessingFromSeeded | api/api/cook.py:573-595 | Where the pending row comes first in id order, that decision is to finalize as `processing` |
| DishTheorems.ReceiptStep | api/api/dishes.py:94-114 | One step moves a receipt by at most one stage; only a dispatch gives it to the runner and only a runner answer hands it over; a Timer reconcile on a runner-owned row and a runner reconcile on any other row change nothing |
| DishTheorems.ReceiptHandoff | kitchen/expediter_runner.py:76-86 | Over a run the owner only moves nobody, runner, provider; a runner receipt is the row's own; a provider receipt never changes again |
| DishTheorems.LeaseExclusion | api/api/dishes.py:1058-1204 | Two successful claims of one row, of either kind, are separated by a release, a terminal reconcile or more than the lock timeout |
| DishTheorems.ClaimsOnlyWhileRunning | api/api/dishes.py:1102-1142 | In every reachable state a held claim has an owner and means the row is running, so a terminal row holds none |
| DishTheorems.AtMostTwoStepsPerRow | api/plugins/state.py:103-129 | Termination: any run of an n-row dish has at most 2n dispatches and finishing reconciles |
| DishTheorems.FinalizationNeverStale | api/api/cook.py:305-398 | One direction, on a single decision: from a snapshot with no pending row in the lowest blocking bucket it may commit at any later time, when all rows are terminal and none is dispatched after; the exact condition on the dish is Finalization.FinalizationSealsExactly |
| DishTheorems.NothingAfterAllTerminal | api/plugins/state.py:103-129 | Once all rows are terminal no run starts or reopens any |
| Segments.NextPendingExecutionSegment | kitchen/execution_segments.py:106-151 | The two loops compute the segment specification |
| Segments.SegmentMeaning | kitchen/execution_segments.py:106-151 | For the least open row f: a segment exists exactly when f is pending and all pending rows of its bucket name a service; it then holds exactly those rows, each once, in execution order |
| Segments.SegmentOrder | kitchen/execution_segments.py:64-91 | The execution order said on the columns: depth, group, step order, task key as text, id; the least open row and the listing of a segment are by it |
| Segments.NoSegmentWhenAllDone | kitchen/execution_segments.py:112-128 | No open row, no segment |
| Segments.SegmentIgnoresReadOrder | kitchen/execution_segments.py:64-91 | The segment is the same for every order in which the rows were read |
| Cook.DishTable.Advance | api/api/cook.py:298-448 | One uninterrupted advance call: the decision, the rows it dispatches, and which status it writes at finalization, each with its exact cause |
| Cook.DishTable.MarkReady | api/api/cook.py:414-448 | The compare-and-swap loop dispatches exactly the rows that are still ready, each once, and touches the dish exactly when there was one |
| Cook.OpenRowsAtFinalization | api/api/cook.py:305-333 | Wherever an advance finalizes, an open row can only be pending in the lowest blocking bucket |
| Cook.CompleteMeaning | api/api/cook.py:573-609 | The scan says `complete` exactly when every row succeeded or was allowed to fail and no guard reported not firing |
| Cook.FinalStateExactly | api/api/cook.py:573-595 | Which status finalization writes: for each of them, if and only if the first telling row in id order is of the kind that causes it; its execution status and its error with it |
| Cook.GuardCancels | api/api/cook.py:598-609 | A succeeded row among done rows cancels the dish exactly when it is a remediation guard whose alert no longer fires |
| Cook.DecisionExactly | api/api/cook.py:298-333 | Which decision an advance takes: by the least open row, the rows in flight and the pending rows behind a failure |
| Cook.FinalizationSound | api/api/cook.py:536-609 | At finalization all rows are terminal exactly when no pending row sits in the lowest blocking bucket; the status then is not `processing`, and `complete` exactly as in CompleteMeaning |
| Cook.FinalizedAsProcessing | api/api/cook.py:573-595 | The exact condition under which finalization writes `processing` |
| Cook.FinalizedAsProcessingExample | api/api/cook.py:541-544 | A pending row beside an earlier failed row of its bucket is such a case (reached by Finalization.FinalizedAsProcessingFromSeeded) |
| Collapse.CollapseDishIngredientRecords | api/api/dishes.py:268-294 | The loop over the dictionary yields the specified view |
| Collapse.OneRowPerStep | api/api/dishes.py:234-294 | Every logical step has exactly one row in the view, of maximal rank among its duplicates |
| Collapse.ShownRowOutranks | api/api/dishes.py:218-294 | A row is shown exactly when it outranks every other row of its step, with step and rank said on the columns |
| Collapse.ViewOrder | api/api/dishes.py:282-294 | The view lists its rows by start, end, creation and id, unstarted rows last |
| Collapse.CollapseIgnoresReadOrder | api/api/dishes.py:268-294 | The whole view is the same for every order of the input |
| Collapse.NothingHidden | api/api/dishes.py:268-294 | Without duplicated steps the view is a rearrangement of the rows |
| Timer.CancelBlockedFutureRows | kitchen/timer.py:348-401 | The cascade loop sends a cancel to exactly the shown pending rows of later buckets |
| Timer.SweepDish | kitchen/timer.py:702-731 | One sweep: no representative, no change; otherwise the rows after the cascade, with the dispatched segment where Cook's decision on them is to dispatch |
| Timer.RepresentativeMeaning | api/api/dishes.py:173-199 | Between steps there is a representative as soon as there is a row; it is a blocking failure exactly when there is one, and then lies in the lowest blocking bucket |
| Timer.RepresentativeExactly | api/api/dishes.py:173-199 | Exactly which row represents a dish: the first blocking failure, else the last finished row, else the first pending one |
| Timer.CascadeMoves | kitchen/timer.py:348-401 | The cascade cancels every pending row behind the representative and moves no other |
| Timer.CanceledRowShows | kitchen/timer.py:256-323 | What a canceled row shows: the two times, the row it was blocked by, that row's error, and nothing it carried |
| Timer.CascadeClears | api/api/cook.py:536-545 | After the cascade Cook sees no pending row after a blocking failure |
| Timer.SweepProgress | kitchen/timer.py:702-731 | On a dish between steps one sweep dispatches at least one row or finalizes the dish with a final status |
| Timer.SweepRepeats | kitchen/timer.py:702-731 | Once Cook would finalize, a further sweep changes no row |
| Drain.RoundKeeps | kitchen/timer.py:702-731 | A sweep that dispatches, once what it started has ended, leaves the dish ready for the next sweep with fewer pending rows |
| Drain.DishDrains | kitchen/timer.py:702-731 | Termination with progress: when started rows are always answered, at most one sweep per row dispatches, and the next one finalizes the dish with a final status |
| Drain.SomeDrain | kitchen/timer.py:702-731 | Every sweepable dish has such a history of answered sweeps that ends with its finalization |
| RowEndpoints.DishIngredient.ApplyUpdate | api/api/dishes.py:1280-1309 | The field-by-field update is the row function of Rows.ReplayIsHarmless and Protocol.InvKept, the stored status is the one Execution.VerdictMeaning describes; a refused transition leaves every field alone |
| RowEndpoints.DishIngredient.Reconcile | api/api/dishes.py:1218-1245 | The Timer's endpoint is the step of DishTheorems.ReceiptStep and Rows.TimerVerdictIgnoresContext |
| RowEndpoints.DishIngredient.ReconcileExecuted | api/api/dishes.py:1251-1277 | The runner's endpoint is the step of DishTheorems.ReceiptStep and ReceiptHandoff |
| RowEndpoints.DishIngredient.ClaimForPoll | api/api/dishes.py:1050-1088 | The Timer's claim is the step of DishTheorems.LeaseExclusion; a refusal changes nothing |
| RowEndpoints.DishIngredient.ClaimForExecution | api/api/dishes.py:1094-1144 | The runner's claim is the step of DishTheorems.LeaseExclusion; a refusal changes nothing |
| RowEndpoints.DishIngredient.ReleaseClaim | api/api/dishes.py:1150-1212 | The release is the step that frees a claim in DishTheorems.LeaseExclusion; a refusal changes nothing |
| Rows.ReplayIsHarmless | api/api/dishes.py:1280-1309 | For every expected outcome: a repeated terminal reconcile changes nothing but the update time, or is refused, exactly when the verdict moved the status |
| Rows.ReplayAtEndpoints | api/api/dishes.py:1218-1277 | The same at the two reconcile endpoints, whose ownership check comes first |
| Rows.ReplayWithoutStatusFlips | api/plugins/state.py:187-208 | A replay of a request without a status, which neither the runner nor the Timer builds, can flip a judged row: the status in their requests is what makes their replays harmless |
| Rows.TimerVerdictIgnoresContext | kitchen/timer.py:94-112 | Carrying context updates into an object outcome leaves the verdict that of the adapter's outcome, unless the expectation mentions the carried key |
| Rows.TimerVerdictOnMissingOutcome | kitchen/timer.py:94-112 | With no outcome the carried updates alone are judged, and what the row then becomes |
| Execution.VerdictClosure | api/plugins/state.py:187-208 | A verdict never leaves the terminal set; `canceled` is its one fixed status |
| Execution.VerdictFlips | api/plugins/state.py:187-208 | Judging twice flips an expected failure |
| Execution.ContextKeepsVerdict | api/plugins/contract.py:192-208 | An extra context key never changes a verdict whose expectation does not name it |
| Execution.VerdictMeaning | api/plugins/state.py:187-208 | For every expectation, outcome and requested status: what the verdict is, by the requested status for a boolean or a text, by the completed outcome for an object |
| Execution.ExpectedStatusMeaning | api/plugins/contract.py:192-199 | An expected `status` is met if and only if the outcome has that status, or has none and the requested status has that name |
| Execution.ReceiptRoundTrip | api/api/expediter.py:302-313 | The receipt Cook mints is recognised and leads back to exactly its row |
| Execution.ReceiptIdMeaning | api/api/expediter.py:306-313 | A receipt leads to a row exactly when digits follow the prefix; what comes after a colon does not count |
| Execution.ReceiptsRecognised | api/api/expediter.py:302-313 | Every receipt that leads to a row is recognised as the runner's, blanks around it or not |
| RowTheorems.TransitionsGoForward | api/plugins/state.py:103-129 | A transition is allowed exactly when it goes forward or stays, and from a terminal status only when it stays |
| RowTheorems.DispatchHandsOver | api/api/cook.py:414-448 | A dispatched row is the runner's: its receipt leads back to it, it cannot be dispatched again, and only the runner's endpoint takes reconciles of it |
| RowTheorems.ClaimHolds | api/api/dishes.py:1050-1212 | A claim keeps everyone out exactly for the lock timeout; exactly its owner can release it, and then anyone can claim |
| RowTheorems.ClaimsExactly | api/api/dishes.py:1050-1212 | When each of the two claims and the releases succeed |
| RowTheorems.CallableExactly | api/api/expediter.py:503-537 | An overdue row is callable for good, with or without a plugin; any other exactly through an enabled plugin in working order, or by its health check |
| RowTheorems.FinalAnswerStored | kitchen/expediter_runner.py:55-73 | From the service's final answer to the stored row: judged, timed, free of claims; its outcome field by field, and every context update so far, the newer value winning |
| RowTheorems.ProgressStored | kitchen/expediter_runner.py:76-99 | From an answer before the end: the row runs on, and shows every context update so far |
| RowTheorems.CallErrorStored | kitchen/expediter_runner.py:102-117 | A call that raised ends the row as errored, judged like any other end, with the error it raised |
| RowTheorems.TimerReportStored | kitchen/timer.py:69-112 | From a Timer report to the stored row: the adapter's outcome, and the carried updates under those the adapter gave |
| Contract.ContainsReflexive | api/plugins/contract.py:192-208 | Containment without a status fallback is reflexive |
| Contract.ContainsTransitive | api/plugins/contract.py:192-208 | and transitive |
| Contract.ContainsAntisymmetric | api/plugins/contract.py:192-208 | and antisymmetric up to Python equality: a partial order on nested objects |
| Contract.ContainsMeaning | api/plugins/contract.py:192-208 | Containment holds exactly when every path of the expectation leads to an equal value of the outcome, a missing top-level `status` being the requested one |
| Contract.SameMeaning | api/plugins/contract.py:163-208 | The equality used at the leaves is Python's: booleans equal the numbers 1 and 0, everything else by shape and content |
| Contract.MatchWithoutStatus | api/plugins/contract.py:147-189 | With no status: which text of an object outcome speaks for it, and which flag where there is none |
| Orders.OrderRecord.DispatchOnce | api/api/orders.py:535-646 | One dispatch: guards, chosen recipe, skips, the new dish and the order's new columns |
| Orders.RecipeHasPhaseRemediation | api/api/orders.py:142-154 | The loop finds a remediation step of the phase exactly when there is one |
| OrderOutcomes.PhaseRemediationMeaning | api/api/orders.py:142-154 | Which steps count: a remediation ingredient in a step of the phase, a step without a phase running in both |
| Orders.OrderRecord.FinalizeForDish | api/api/cook.py:741-818 | Every branch of the finalization and the flag that asks for a resolving dispatch; what they record is OrderOutcomes.FinalizationRecords |
| Orders.StatusOnlyMovesUp | api/core/statuses.py:12-46 | A step moves the status down exactly when it is one of the two webhook reopenings; otherwise terminal orders are frozen |
| Orders.ActiveExactlyWhileOpen | api/api/cook.py:768-818 | In every reachable state the order is active exactly when its status is not terminal |
| Orders.FiringDishesExactly | api/api/orders.py:549-646 | Over any run the firing dishes grow by exactly the dispatches of a new order with a usable recipe and no live firing dish |
| Orders.OneFiringDish | api/api/orders.py:549-646 | An order gets at most one firing dish, plus one per time a resolving order fires again |
| Orders.RefiringAddsFiringDish | api/services/pre_heat.py:184-207 | The bound is met: a run with one refire and two firing dishes |
| Orders.WakeupStep | api/api/cook.py:749-778 | A step leaves a pending remediation without a live firing dish exactly when it finalizes the last one while the order is closed or another dish is live |
| Orders.NoLostWakeup | api/api/orders.py:549-643 | In every run that does not refire, a dispatch waits only for a live firing dish, and finalizing that dish asks for the resolving dispatch |
| Orders.RequestedDispatchIsTaken | api/api/orders.py:549-569 | The requested dispatch is never told to wait nor refused while the order is open and does not refire |
| Orders.WaitingIsAnsweredExactly | api/api/orders.py:549-569 | A dispatch waits only while a live firing dish exists; finalizing that dish asks for the resolving dispatch if and only if the alert has resolved and no other dish is live |
| Orders.RefiringLosesWakeup | api/services/pre_heat.py:388-410 | A refiring order can lose the wake-up: a run after which a dispatch waits, the dish it waits for asks for nothing, and the order completes with its remediation pending |
| Orders.CompletionsMatchOpenings | api/api/cook.py:749-818 | Over any run an order ends exactly as often as it was opened, by its creation or by a late clear |
| Orders.ReopenedEndsTwice | api/services/pre_heat.py:388-410 | A reopened order does end twice: a concrete run |
| OrderOutcomes.FinalizationRecords | api/api/cook.py:741-818 | What finalizing a dish does to its order, in every case: the outcome of a firing dish is `succeeded` exactly when it ended complete and `none` exactly when canceled, a resolving dish changes none; the order's final status by the dish's in the same way |
| OrderOutcomes.OutcomeOfRun | api/api/cook.py:765-803 | Over every run the recorded outcome is the one of the last settled firing dish or planning dispatch |
| OrderOutcomes.EndOfRun | api/api/cook.py:781-818 | Over every run an ended order has the status of the last dish finalized with nothing else under way |
| OrderOutcomes.DispatchAnswers | api/api/orders.py:535-646 | Which answer a dispatch gets, said on the order and the recipes offered |
| OrderOutcomes.DispatchWrites | api/api/orders.py:570-646 | What each answer writes: the planned dish is the latest live one of the phase or a new one, and there is a remediation to wait for exactly when the recipe has a remediation step for the firing phase |
| OrderOutcomes.NotificationWrites | api/services/pre_heat.py:184-207 | What a notification does to an order, and that it touches four columns only |
| OrderOutcomes.CounterOfRun | api/services/pre_heat.py:184-193 | The counter is the number of firing notifications the active order received |
| OrderOutcomes.AlertOfRun | api/services/pre_heat.py:388-410 | Over every run the alert counts as resolved exactly when the last notification the order took was a resolved one |
| Tasks.TaskTable.ClaimDue | api/api/scheduled_tasks.py:312-341 | The claim loop marks exactly the selected due tasks |
| Tasks.TaskTable.RequestRunNow | api/api/scheduled_tasks.py:291-308 | Which reply comes when, and that only an idle enabled task is rescheduled |
| Tasks.TaskTable.FinalizeForOrder | api/api/cook.py:821-850 | The task's state after its order ended; when it runs again is TaskTimes.PauseBetweenRuns and ClaimedAgainExactly |
| Tasks.SelectedMeaning | api/api/scheduled_tasks.py:319-334 | A due task is passed over only when the limit is filled by tasks before it in priority, time and id |
| TaskTimes.SelectedExactly | api/api/scheduled_tasks.py:319-334 | A claim takes a task exactly when it is due and fewer due tasks than the limit come before it in priority, time and id |
| TaskTimes.CompletionStamps | api/api/cook.py:835-849 | What a completion writes to its task: a success exactly when the dish that ended the order is complete (a canceled remediation ends the order `complete` and still counts as a failure), and the next run |
| TaskTimes.PauseBetweenRuns | api/api/cook.py:845-849 | Over every run: a claim that follows a completion with no run-now request between them comes at least `max(1, interval)` seconds after it |
| TaskTimes.ClaimedAgainExactly | api/api/scheduled_tasks.py:312-341 | A finished task that is left alone is taken by a claim exactly when its pause is over and there is room for it |
| TaskTimes.RequestedIsDue | api/api/scheduled_tasks.py:291-308 | An idle enabled task is due from the moment an operator asks for it; a request for any other changes nothing |
| TaskTimes.DisabledForGood | api/api/scheduled_tasks.py:319-334 | A disabled task is never claimed again and is off once nothing of it is outstanding |
| TaskTimes.ClaimBecomesOrder | api/services/order_intake.py:51-64 | A claim becomes exactly one open order of its task, which is then queued |
| Tasks.RecurringTaskDiscipline | api/api/scheduled_tasks.py:312-341 | Over every run of claims, injected orders with all their dispatches and finalizations, run-now requests and disablings: claims and completions alternate, at most one is outstanding, no order completes its task twice, the failure counter is the failing suffix, and an enabled task is idle and scheduled exactly when nothing is outstanding |
| RuleEditor.RuleFile.UpsertRule | api/services/alert_rule_repo.py:284-373 | The in-place edit equals the document function; an error leaves the document alone |
| RuleEditor.RuleFile.DeleteRule | api/services/alert_rule_repo.py:376-478 | The same for deletion and its flag |
| RuleEditor.EnsureGroupEntry | api/services/alert_rule_repo.py:273-281 | The first group of that name, with a list of rules, or a new one at the end; an item that is no object on the way is an error |
| RuleTheorems.UpsertKeepsTheRest | api/services/alert_rule_repo.py:284-373 | An upsert writes one rule at one spot, over the rule of that name if the group has it, and leaves all rules of all five shapes before and after that spot as they were |
| RuleTheorems.UpsertKeepsTheRestExactly | api/services/alert_rule_repo.py:295-320 | Rules are neither lost nor revealed exactly when the document is of the right kind (or offers none) and hides none |
| RuleTheorems.UpsertIdempotentExactly | api/services/alert_rule_repo.py:284-373 | A repeated upsert changes nothing exactly when the payload bears the name it is filed under and, in a `rules` document, the group name is trimmed |
| RuleTheorems.PresentMeaning | api/services/alert_rule_repo.py:273-281 | What an upsert replaces or a deletion removes is at most one offered rule, of that name, group and shape |
| RuleTheorems.DeleteRemovesOne | api/services/alert_rule_repo.py:376-478 | The flag is true exactly when the rule was there; then exactly that one offered rule is gone, otherwise the document is unchanged |
| RuleTheorems.DeleteUndoesUpsertExactly | api/services/alert_rule_repo.py:284-478 | Deleting a freshly upserted rule restores the offered rules exactly when the upsert neither discarded nor revealed any |
| RuleEffects.UpsertKeepsFields | api/services/alert_rule_repo.py:273-373 | An upsert keeps the other groups, the other fields of its group and every field off its path; a new group holds its name and the rule only |
| RuleEffects.DeleteKeepsFields | api/services/alert_rule_repo.py:376-478 | A deletion takes an emptied group and an emptied wrapper with it, and keeps every other field |
| RuleEffects.UpsertedIsIndexed | api/services/alert_rule_repo.py:155-373 | The index of the edited file holds the upserted rule under its own name, in its group, with the very source it was filed under |
| RuleTheorems.ListSet | api/services/alert_rule_repo.py:333-360 | Writing a list of groups at a format's path changes no rule outside that list |
| RuleIndex.BuildIndex | api/services/alert_rule_repo.py:155-199 | The loops over documents, groups and rules compute the index of RuleIndex.IndexedExactly |
| RuleIndex.IndexMeaning | api/services/alert_rule_repo.py:155-199 | A repository can be indexed exactly when every document has a readable shape and no name occurs twice; the index then holds every offered rule with its group and source and nothing else |
| RuleIndex.IndexedExactly | api/services/alert_rule_repo.py:98-199 | What the index holds, read off the fields of the documents: the five shapes, the group's name, the rule's `alert` or `record`, the source with its wrapper key |
| RuleIndex.NamedByFields | api/services/alert_rule_repo.py:187-197 | A set `alert` names the rule whatever its `record`, the `record` names it only where no `alert` is set, and a rule with neither is not indexed |
| RuleEditor.DefaultWrapperKeyMeaning | api/services/alert_rule_repo.py:70-72 | The default wrapper key is the file name without directories and last suffix |
| RuleRender.RenderDocument | api/services/alert_rule_repo.py:481-539 | The rendering loops and their three errors |
| RuleRender.RenderErrors | api/services/alert_rule_repo.py:481-539 | Exactly which sets of records cannot share a document, and with which error |
| RuleRender.RenderIgnoresPaths | api/services/alert_rule_repo.py:481-539 | The paths the records come from do not matter, so RuleRender.RoundTrip speaks of records from any files: a wrapper without a name is named after the rendered file |
| RuleRender.RenderKeepsGroups | api/services/alert_rule_repo.py:481-539 | What a rendered document offers for a group is that group's records in order |
| RuleRender.RenderConserves | api/services/alert_rule_repo.py:481-539 | Rendering neither loses, duplicates nor invents a rule |
| RuleRender.RoundTrip | api/services/alert_rule_repo.py:99-199 | Indexing a rendered document gives back every record with its group, its rule and its source (with the wrapper key in effect) and nothing else |

## Left out

- HTTP, sessions, retries, logging, metrics and database plumbing: an endpoint is one atomic step; the retry loop of `dispatch_order` repeats such a step.
- Adapters and providers: their answers are arbitrary values, except that they never mint a receipt with the runner prefix.
- The Timer's poll decisions (`_poll_row`): any report its payload builder can make is allowed at any time, a superset of what the branches send.
- Column types and soft deletes: ids, depths, groups and step orders are integers that are set, a status is one of the eight values, rows are neither added nor deleted after seeding.
- Rows without a service type: a hypothesis wherever it matters (`AllNamed`).
- Cook.DishTable.Advance: one call reads the clock once, and the dish's run time and update time are not modelled, because no modelled decision reads them.
- Cook.DishTable.MarkReady: one clock reading serves all rows; in the state machine every swap has its own.
- The dish status and the rows live in separate steps of the state machine: the dish is a record of the order machine, where touching and finalizing it are steps of their own.
- `_apply_terminal_runtime_outputs`, run-time totals and plugin health results: they write columns no modelled decision reads.
- The suppression short-circuit, which overwrites orders unconditionally, and operator edits of orders, tasks and rows.
- Other writers of an order's status: the watchdog's synthetic order (api/plugins/prometheus/watchdog.py:80), warnings (api/services/pre_heat.py:150, 162) and bakery reconciliation (api/plugins/bakery/incident_reconciliation.py:883-1006). "Reachable" means by dispatch, finalization and the alert webhook.
- Bakery and ticket handling, context injection and the adapters' execution context.
- Orders.OrderRecord.DispatchOnce: the seeding of the new dish's rows, because the rows of a dish are the subject of Protocol, which starts from seeded rows.
- Orders.OrderRecord.FinalizeForDish: the completion of a scheduled task, because the task is another record; Tasks.RecurringTaskDiscipline joins the two.
- Tasks.TaskTable.FinalizeForOrder: `last_status`, `last_message` and the last-order columns, because no claim reads them.
- Tasks.SelectedMeaning: `skip_locked` passes over due tasks that another claim holds locked, whatever the limit, because a claim is one atomic step here.
- TaskTimes.SelectedExactly: the same `skip_locked`.
- Tasks.RecurringTaskDiscipline: alerts on scheduled orders, because such an order carries its own request id as fingerprint (kitchen/dishwasher.py:529, 543); an alert with that fingerprint could reopen it (Orders.ReopenedEndsTwice).
- Tasks.TaskTable.RequestRunNow: the checks of a task's origin and identity before the run-now branches, because they read columns that never change here.
- A claim whose order injection fails leaves the task queued for ever; the model keeps it as a claim still pending.
- Reading files, JSON and YAML text, path validation and annotations: the rule editor works on parsed documents; keys are strings.
- RuleRender.RoundTrip: a rule name that is itself a list or object is given Python's `str` without escaping, and aliased YAML nodes are separate values, because documents are values here.
- Texts are ASCII: `strip`, `lower` and `isdigit` follow Python on ASCII characters only.
