# Verified model of temporal-common

temporal-common is a Go library of small protocols on top of Temporal: sagas with dead-letter handling,
idempotent activity execution, fan-out/fan-in, approval gates, versioned changes, an SLA monitor, and a
start-or-attach client. This project models those protocols in Dafny and proves what their control flow
guarantees in every environment. `dafny verify dfyconfig.toml` checks everything.

The environment is always an input. Activity outcomes, completion orders, clock readings, store faults,
handler panics, signals, recorded markers and the actions of other clients are parameters ("scripts"), so
a theorem over all scripts is a theorem over all runs. Objects the library updates in place are classes
whose methods are proved against functions on values; the theorems are lemmas about those functions.

## Modules

- `Temporal`: calls, outcomes, the append-only history, the workflow context. `Sequences`, `Decimal`: helpers.
- `Sagas`: the `Saga` class, the LIFO unwinding, failure events, handler panics.
- `SagaRuns`: whole runs of the saga pattern; the world and the ledger are folds over the history.
- `PaymentSaga`, `LoanDisbursement`: the two example workflows, each shown to be an instance of `SagaRuns.Run`.
- `Approval`, `Versioning`: the approval gate, alone and several on one signal channel, and the change set.
- `IdempotencyKeys`, `IdempotencyStores`: the two key formats, the two stores, and the interface they share.
- `IdempotentExecution`, `InterleavedIdempotency`: attempts on either store under every fault and clock, one after
  the other, and interleaved step by step.
- `Parallel`: fan-out and fan-in for every completion order.
- `SlaMonitor`: the polling loop.
- `StartOrAttach`: the two-request client protocol against a server shared with other clients.
- `OptionsBuilder`: the builder over Go slices with backing arrays and capacities.

## Assumptions about the outside

- An activity that fails permanently has no effect on the outside world (`SagaRuns.Apply`).
- Each future resolves once; a selector fires one unfired ready future per `Select` (`Parallel.Selector`).
- `GetVersion` returns the recorded marker, the default while re-executing a run that has none, and otherwise
  records the maximum (`Versioning.GetVersion`).
- JSON is an encode/decode pair where decoding what was encoded gives it back (`IdempotentExecution.Lawful`);
  each key is used with one result type.
- A start of a running id is answered with AlreadyStarted if the start options ask for it, and with the running
  run as if it had been started otherwise. This is `refuseRunning` in `StartOrAttach.Options`, which the code
  passes on as the caller gave it; no theorem fixes it for all clients. Options that let the server do something
  else with a running id, such as terminating it, are assumed to be at their defaults.
- Signals are read from the channel in the order of arrival, and a signal no gate has read stays there.
- Redis removes a key at the instant its positive expiration ends (`IdempotencyStores.RedisGet`).

## Where the code and its documentation differ

The model follows the code.

- `references/saga-pattern.md:51` says a compensation error becomes the workflow's terminal error. `Compensate`
  returns nothing; `RunIsNonInterfering` proves the forward error is returned unchanged.
- `SetPivot` is said to change how failures after it are treated. `Compensate` never reads the pivot, so it is not
  part of `Sagas.Stack`, on which unwinding depends.
- The sink of a dead-letter handler is called fire-and-forget in `workflow/dlq.go:47-48`; the code waits for it
  and swallows its error. `SinkIsAwaited` proves that it ends before the next compensation is attempted.
- `IdempotencyKey` is said to prevent double execution when a response is lost. It contains the attempt number,
  and `PerAttemptKeysNeverHit` proves that nothing recorded is ever found across retries.
- Key formats are said to be unique. They are for activity ids without slashes. `StableKeysCollideIff` gives the
  exact condition for the stable format, and `KeysEqualIff` reduces the per-attempt format to it.
- The store is said to prevent double execution (`activity/idempotency_store.go:14-15`). For attempts one after the
  other, `HitsExactlyWhenItFinds` and `SuccessesAreExecutions` say exactly which attempts execute and how many,
  and `AtMostOnceIff` exactly when there is no double execution. For attempts that overlap,
  `HonestChecksMissIff` says exactly when a check misses, and `RacesAreReal` has n attempts that all execute
  without any fault. `DuplicationIsBounded`, `DuplicationIsFaultsPlusRaces` and
  `WithoutOverlapAtMostOnePlusFaults` bound the damage.
- `client/start.go:31-32` promises AlreadyRunning=true for an id that is running. The code never asks for the
  AlreadyStarted answer itself. `FlagIsTruthfulIff` and `ClaimIsTrueIff` give the exact condition, and
  `EveryHandleWasRunning` what holds without it.
- `AlertFn` is said to be called once per workflow. The monitor remembers ids: `AlertedIff` says exactly which
  listing is alerted, and `ReusedIdGetsNoAlert` has an overdue run that never is.
- The poll interval is said to be half the smaller threshold, at least 30 seconds. It is always exactly 30 seconds;
  `SlaMonitor.PollInterval` says exactly for which thresholds that is the documented interval.
- `ApprovalID` is said to identify an approval. It is only checked for being non-empty: gates of one workflow take
  the signals in order, whomever they were sent for (`IdsAreIrrelevant`, `SkippedSignalDecidesALaterGate`).
  `EachGateGetsItsOwnSignalIff` says exactly when each gate gets its own.
- `Compensate` does not set `completed`: a second call runs everything again. `SecondRollback` says exactly when
  that adds nothing.

## Model

| member | source | states |
|---|---|---|
| Sagas.Saga.constructor | workflow/saga.go:52-65 | a new saga takes its identity from the context, has an empty stack and the last handler given |
| Sagas.Saga.AddCompensation | workflow/saga.go:70-76 | the call goes on top of the stack under the name of its function, or `unknown` if it has none; everything below is kept |
| Sagas.Saga.OnCompensationFailed | workflow/dlq.go:87-101 | the sink activity runs once for the event and its failure goes nowhere; a panic is only reported to the caller |
| Sagas.Saga.CompensateStep | workflow/saga.go:116-163 | one turn of the loop: the compensation is attempted, a permanent failure is handed to the handler with the right index, name and message, and neither failure nor panic stops it |
| Sagas.Saga.Compensate | workflow/saga.go:100-166 | a completed saga does nothing; otherwise the history grows by exactly the unwinding of the whole stack, whatever the pivot is |
| Sagas.AttemptsAreTheReversedStack | workflow/saga.go:115-125 | for every script, the attempted compensations are the registered calls in reverse, all of them, once each |
| Sagas.UnwindingIsNonInterfering | workflow/saga.go:115-163 | outcomes, sink failures, panics and the choice of handler never change the sequence of attempts |
| Sagas.ReportsAreTheFailures | workflow/saga.go:138-160 | the handler receives exactly the failure events; without a handler nothing is reported |
| Sagas.FailureEventsAreExact | workflow/dlq.go:14-33 | one event per permanently failed step with its own data, none for any other, indices strictly decreasing |
| Sagas.SinkCallsAreExact | workflow/saga.go:138-160 | the sink activity runs exactly once for every failed step whose handler does not panic, the first registered one included, with that step's own event, and for no other |
| Sagas.PanicsAreExact | workflow/saga.go:148-159 | exactly the failed steps whose handler panics leave a recovered panic |
| Sagas.SinkIsAwaited | workflow/dlq.go:87-101 | the sink activity of a failed step has ended, in whatever way, right before the next compensation is attempted |
| Sagas.SecondRollback | workflow/saga.go:100-125 | a second Compensate attempts the whole stack again, and adds nothing to the history exactly when the saga is completed or its stack is empty |
| SagaRuns.RollbackRestoresTheWorld | workflow/saga.go:70-76 | for steps that need not commute, a failed run whose compensations undo their steps where they ran restores the exact starting state |
| SagaRuns.UnwindRestores | workflow/saga.go:115-163 | the induction over the LIFO loop: unwinding the bottom k entries takes the state after k steps back to the start |
| SagaRuns.ResidueIsWhatWasReported | workflow/saga.go:100-166 | the final ledger of a failed run is the initial one plus exactly the postings of the steps handed to the dead-letter handler, each once, in decreasing order; no event means full restoration |
| SagaRuns.ResidueIsTheFailedCompensations | workflow/saga.go:125-161 | with or without a handler, what remains is exactly the steps whose compensation failed permanently |
| SagaRuns.RunIsNonInterfering | workflow/saga.go:100-166 | compensation outcomes, handlers and panics change neither the returned error nor the attempts; a completed run compensates nothing |
| SagaRuns.FailureEndsTheRun | workflow/saga.go:24-37 | the calls up to the first failure are made in order and no other, and its own error is returned, with the step's prefix |
| SagaRuns.SuccessCompletesTheRun | workflow/saga.go:24-37 | without a failure every call is made once, in order, and nothing is returned as an error |
| SagaRuns.CompensationCallsAreExact | workflow/saga.go:115-125 | each compensation is called with the id its own step returned and its registered arguments, last step first |
| SagaRuns.EventsAreExact | workflow/saga.go:138-147 | every event names the run, the function of the failed compensation, its index, its error and its time |
| PaymentSaga.PaymentSagaWorkflow | examples/payment-saga/workflow.go:41-62 | the workflow is the saga pattern with debit, reverse debit and a final credit |
| PaymentSaga.Pay | examples/payment-saga/workflow.go:44-62 | what the body leaves for the deferred rollback: the records, the error, the stack and the completion mark |
| PaymentSaga.PaymentIsExact | examples/payment-saga/workflow.go:41-62 | the whole history and error of a payment, written out for every outcome: which calls, with which arguments, in which order |
| PaymentSaga.PaymentMovesAllOrNothing | examples/payment-saga/workflow.go:41-62 | for every outcome the payment moves completely, or nothing moves, or exactly an irreversible debit remains, unreported because no handler is installed |
| Approval.WaitForApproval | workflow/approval.go:59-108 | the verdict, the history and what is left in the channel, for every race between the first signal and the timer, and both invalid requests |
| Approval.GateIsExact | workflow/approval.go:73-107 | verdict, record and channel of a valid gate, written out: who wins at and around the deadline, whose decision it is, and when it is stamped |
| Approval.InvalidRequestsChangeNothing | workflow/approval.go:60-65 | an empty id or a timeout that is not positive is refused, with nothing recorded and no signal taken |
| Approval.ApprovalIsTheFirstSignal | workflow/approval.go:76-107 | approval needs an approving signal no later than the deadline, and an approving signal in time loses only to an earlier refusal; if any signal comes before the deadline the verdict is the first one's payload, if none comes up to it the time-out |
| Approval.GateReadsTheFirstUnusedSignal | workflow/approval.go:73-92 | over any gates sharing one channel, gate k is decided by the first signal that no earlier gate took: none is used twice, none is skipped |
| Approval.EachGateGetsItsOwnSignalIff | workflow/approval.go:73-92 | n gates are decided by the first n signals, each by its own, exactly when every request is valid and every signal is in time for its gate |
| Approval.IdsAreIrrelevant | workflow/approval.go:59-105 | changing non-empty approval ids changes no verdict of any gate |
| Approval.SkippedSignalDecidesALaterGate | workflow/approval.go:73-101 | a signal that earlier gates did not take, each timing out, decides the first later gate for which it is in time |
| Approval.LateSignalDecidesTheNextGate | workflow/approval.go:73-101 | the instance of two gates: a signal after the first one's deadline decides the second |
| Versioning.ChangeSet.Define | workflow/versioning.go:40-43 | one GetVersion answer is stored under the name; a recorded version above the maximum panics and changes nothing |
| Versioning.InFlightAnswers | workflow/versioning.go:40-65 | re-executing a run adds no marker, gets through exactly when every recorded version is supported, and answers every defined name by the record |
| Versioning.ChangeSet.IsEnabled | workflow/versioning.go:47-53 | true exactly if the name was answered with version 1 or higher |
| Versioning.ChangeSet.Version | workflow/versioning.go:59-65 | the answer for the name, and -1 without one |
| Versioning.EnabledIffVersioned | workflow/versioning.go:47-65 | the two accessors agree: enabled exactly if the version is at least 1 |
| Versioning.FreshRunsGetTheMaximum | workflow/versioning.go:35-53 | a fresh run is on the maximum version of every change, which is enabled exactly if that is at least 1 |
| Versioning.InFlightEnabledIff | workflow/versioning.go:40-53 | a run in flight has a change enabled exactly if its own history recorded version 1 or higher |
| Versioning.ReplayReproducesTheRun | workflow/versioning.go:45-65 | whatever was recorded before, replay gives the same Version and IsEnabled answers as the original run |
| Versioning.AnswersSurviveDeployments | workflow/versioning.go:40-65 | whatever was recorded before and after any deployments, an old answer is unchanged exactly when its name is still defined or was on the default; changes new to the run stay on the old path |
| LoanDisbursement.LoanDisbursementWorkflow | examples/loan-disbursement/workflow.go:42-153 | the whole workflow, with versioning, gate and deferred compensation, produces exactly `LoanRun` |
| LoanDisbursement.Process | examples/loan-disbursement/workflow.go:61-153 | the workflow after its version decision produces exactly `LoanRun` for that decision |
| LoanDisbursement.SettlementIsASagaRun | examples/loan-disbursement/workflow.go:103-152 | the part from the reservation on is an instance of the saga pattern followed by a best-effort notification |
| LoanDisbursement.DisbursementIsGuarded | examples/loan-disbursement/workflow.go:61-132 | every attempted disbursement comes after KYC approval of the borrower, a score of at least 600 if the version enables the check, an approving signal within 48 hours if requested or above 100,000, and the reservation it names; it moves the loan's amount to the loan's account |
| LoanDisbursement.DisbursedIffCleared | examples/loan-disbursement/workflow.go:61-132 | the disbursement is attempted exactly when KYC, score, gate and reservation pass, each written out |
| LoanDisbursement.VettingIsExact | examples/loan-disbursement/workflow.go:58-99 | calls, records and refusals of KYC, score check and gate, written out for every input |
| LoanDisbursement.SettlementIsExact | examples/loan-disbursement/workflow.go:103-152 | calls with all arguments, records and result from the reservation on, written out for every outcome |
| LoanDisbursement.LoanIsExact | examples/loan-disbursement/workflow.go:42-153 | the run is the first part, followed by the second exactly if nothing was refused |
| LoanDisbursement.FreshRunsCheckTheScore | examples/loan-disbursement/workflow.go:46-81 | a fresh run with a score below 600 is refused; a run in flight without the marker is never refused for its score |
| LoanDisbursement.ReservationIsSettledOnce | examples/loan-disbursement/workflow.go:103-153 | a reservation ends either disbursed, never released and without error, or released exactly once under its own id with the disbursement's error |
| LoanDisbursement.NotificationIsBestEffort | examples/loan-disbursement/workflow.go:136-152 | the notification changes neither the result nor any other record |
| LoanDisbursement.FundsAreConserved | examples/loan-disbursement/workflow.go:103-153 | the borrower has the money exactly on success, and money stays held exactly when disbursement and release both failed |
| IdempotencyKeys.NoRetryKeyInjective | activity/idempotency.go:32-37 | the stable key determines workflow and activity when activity ids have no slash, even if workflow ids do |
| IdempotencyKeys.KeysEqualIff | activity/idempotency.go:16-37 | for any ids, two per-attempt keys are equal exactly when the attempts and the stable keys are |
| IdempotencyKeys.KeyInjective | activity/idempotency.go:16-22 | the per-attempt key determines workflow, activity and attempt when activity ids have no slash |
| IdempotencyKeys.RetriesShareOnlyTheStableKey | activity/idempotency.go:10-31 | two attempts of one activity share the stable key and never the per-attempt key |
| IdempotencyKeys.FamiliesCollideIff | activity/idempotency.go:16-37 | exactly when a stable key equals a per-attempt key |
| IdempotencyKeys.KeyFormats | activity/idempotency.go:12-37 | both formats on an example |
| IdempotencyKeys.FamiliesNeverCollide | activity/idempotency.go:16-37 | without slashes in either id the two families are disjoint |
| IdempotencyKeys.StableKeysCollideIff | activity/idempotency.go:32-37 | exactly which activity ids can be confused when slashes are allowed |
| Decimal.ItoaInjective | activity/idempotency.go:17-21 | decimal rendering of the attempt is injective |
| Decimal.ItoaReadsBack | activity/idempotency.go:17-21 | the rendering reads back as the number, with a sign if negative and without leading zeros |
| IdempotencyStores.InMemoryStore.Check | activity/idempotency_store.go:139-151 | a miss for unknown and for expired keys, else the stored data |
| IdempotencyStores.InMemoryStore.Record | activity/idempotency_store.go:153-162 | the entry is replaced, with its expiry, and nothing else changes |
| IdempotencyStores.InMemoryStore.Flush | activity/idempotency_store.go:165-169 | afterwards every check misses |
| IdempotencyStores.RedisStore.Check | activity/idempotency_store.go:219-228 | a transport error is reported and never a hit; a missing key is a miss |
| IdempotencyStores.RedisStore.Record | activity/idempotency_store.go:230-235 | the prefixed key is written with its expiration, or an error is returned and nothing is written |
| IdempotencyStores.Store.Check | activity/idempotency_store.go:18-27 | through the interface, a check answers with the last write of the key unless the store errs or the write has expired as that store expires it |
| IdempotencyStores.Store.Record | activity/idempotency_store.go:18-27 | through the interface, a record replaces the last write of one key, or changes nothing if it is lost |
| IdempotencyStores.StoresAreLastWriteMaps | activity/idempotency_store.go:139-162 | before expiry and for positive TTLs, after any writes, both stores answer every check with the last write |
| IdempotencyStores.StoresAgreeIff | activity/idempotency_store.go:219-235 | exactly when the two stores can be told apart: the instant of expiry, nil data, TTLs that are not positive |
| IdempotencyStores.KeysMeetIff | activity/idempotency_store.go:215-217 | exactly which prefixes allow two Redis stores to share a key |
| IdempotencyStores.RedisKeyFormat | activity/idempotency_store.go:210-217 | the prefixed key on an example |
| IdempotencyStores.ColonFreePrefixesAreSeparate | activity/idempotency_store.go:210-217 | distinct prefixes without a colon never share a key |
| IdempotencyStores.SharedStoresAreIsolated | activity/idempotency_store.go:215-235 | on a shared server a store answers as on a server of its own, for every interleaving of writes |
| IdempotencyStores.MeetingKeysInterfere | activity/idempotency_store.go:215-235 | the separation condition is necessary |
| IdempotentExecution.ExecuteIdempotentWithTTL | activity/idempotency_store.go:64-113 | one attempt on either store under every store fault: what it returns, whether `fn` ran, and what the store holds after |
| IdempotentExecution.EntryIsTheLastKept | activity/idempotency_store.go:97-112 | after any attempts the store shows, for each key, the result of the last attempt on it whose write was kept, and nothing if there is none |
| IdempotentExecution.HitsExactlyWhenItFinds | activity/idempotency_store.go:73-97 | an attempt is served exactly when it finds a result that was kept last and has not expired, or foreign bytes that decode; otherwise it executes |
| IdempotentExecution.StepsAreExact | activity/idempotency_store.go:81-112 | under every fault an attempt returns the error of its own `fn`, the result of its own `fn`, or what it found: the result of the attempt kept last, or the decoded foreign bytes |
| IdempotentExecution.WritesAreExact | activity/idempotency_store.go:99-112 | exactly which attempts leave a write, and what it is: the encoded result, or `null` without a result pointer, with the attempt's TTL |
| IdempotentExecution.SuccessesAreExecutions | activity/idempotency_store.go:64-113 | the successful executions on a key are exactly as many as the attempts that find nothing and succeed |
| IdempotentExecution.AtMostOnceIff | activity/idempotency_store.go:14-15 | there is no double execution on a key exactly when, after a success, every attempt that would succeed finds something |
| IdempotentExecution.DuplicationIsBounded | activity/idempotency_store.go:64-113 | over any attempts on any keys, successes on a key are at most one more than its faulty attempts plus its expiries |
| IdempotentExecution.AtMostOncePlusFaults | activity/idempotency_store.go:64-113 | if every check comes within the TTL of every kept record, at most one success plus one per faulty attempt |
| IdempotentExecution.BoundIsTight | activity/idempotency_store.go:94-112 | on either store, for every f, f faulty attempts do allow f + 1 successes |
| IdempotentExecution.EveryoneGetsTheFirstResult | activity/idempotency_store.go:81-112 | without faults and expiries every attempt that does not fail returns the first success's result, and only the first executes |
| IdempotentExecution.PerAttemptKeysNeverHit | activity/idempotency.go:10-22 | with the per-attempt key a retry is served exactly when its check returned foreign bytes that are usable, from whatever number the attempts count |
| InterleavedIdempotency.HonestChecksMissIff | activity/idempotency_store.go:73-92 | in every interleaving an honest check misses exactly if nothing was kept under its key before or the latest kept value had expired, and returns that value otherwise |
| InterleavedIdempotency.ExecutionsFollowMisses | activity/idempotency_store.go:73-112 | whoever executes on a key missed before: by a store that did not answer honestly, before anything was kept, or after an expiry |
| InterleavedIdempotency.HitsReturnRecordedResults | activity/idempotency_store.go:81-92 | every honest hit is the latest kept record of its key, produced by a successful execution on that key |
| InterleavedIdempotency.LateCheckersNeverExecute | activity/idempotency_store.go:73-97 | once a value is kept, no attempt with a later honest check executes on that key, unless the latest value has expired by then |
| InterleavedIdempotency.CountingAttempts | activity/idempotency_store.go:64-113 | an attempt executes at most once, so counting attempts counts executions |
| InterleavedIdempotency.DuplicationIsFaultsPlusRaces | activity/idempotency_store.go:64-113 | in every interleaving under every store fault, successful executions on a key are at most its checks that were lied to, plus those made before anything was kept, plus those made after an expiry |
| InterleavedIdempotency.WithoutOverlapAtMostOnePlusFaults | activity/idempotency_store.go:64-113 | attempts that do not overlap on the key: at most one successful execution, plus one per lie, per expiry met, per lost record and per attempt that stopped before recording |
| InterleavedIdempotency.RacesAreReal | activity/idempotency_store.go:73-112 | for every n, n overlapping attempts do all execute, with no lie, no expiry, no lost record and no abandoned attempt |
| InterleavedIdempotency.UninterruptedAttempt | activity/idempotency_store.go:64-113 | on either store, under every fault and clock, the three atomic steps run back to back are one call of the library |
| Parallel.CombineErrors | workflow/parallel.go:119-128 | a single error is returned as it is; several as their number and one line for each, in order, and nothing else |
| Parallel.FireOne | workflow/parallel.go:74-94 | one select fires one pending future, whose callback decodes into its own cell and reports its own error |
| Parallel.FanIn | workflow/parallel.go:73-94 | after one select per call nothing is pending; results and cells are those of the completion order |
| Parallel.ExecuteParallel | workflow/parallel.go:54-107 | results, combined error and written cells for every completion order, including the empty batch |
| Parallel.OrderPermutes | workflow/parallel.go:91-94 | every future fires exactly once |
| Parallel.EveryOrderIsPossible | workflow/parallel.go:91-94 | every permutation is the completion order of some environment |
| Parallel.FanInIsCorrect | workflow/parallel.go:74-89 | result indices are a permutation of the calls and each error belongs to the activity at its index |
| Parallel.NoErrorIffAllSucceeded | workflow/parallel.go:96-106 | the combined error is nil exactly when every activity succeeded |
| Parallel.EachPointerHoldsItsOwnValue | workflow/parallel.go:80-88 | distinct result pointers hold their own activity's value on success and are untouched on failure |
| Parallel.ErrorsInCompletionOrder | workflow/parallel.go:96-105 | the collected errors are exactly the failing activities, once each, in the order of their completion |
| Parallel.EveryFailureIsListed | workflow/parallel.go:96-128 | with two or more failures the returned text is their number and, for every failing activity in completion order, a line with its index and its own message |
| Parallel.SoleFailureIsReturned | workflow/parallel.go:99-122 | a failure is returned as its own wrapped error, text included, exactly when it is the only one |
| Parallel.ResultsAreConfluent | workflow/parallel.go:54-107 | two completion orders of the same outcomes give the same results |
| Parallel.SortedResultsAreCanonical | workflow/parallel.go:33-38 | sorting any run's results by index gives one and the same list |
| Parallel.ExecuteParallelBestEffort | workflow/parallel.go:113-116 | the same results and cells, never an error |
| SlaMonitor.PollInterval | client/sla.go:95-105 | the interval is 30 seconds for every configuration, which is the documented one exactly when both thresholds are off or half of an enabled one is at most 30 seconds |
| SlaMonitor.Monitor.CheckSla | client/sla.go:132-185 | one verdict per listed execution; a failed listing changes nothing |
| SlaMonitor.Monitor.Run | client/sla.go:107-129 | any number of ticks equals one pass over everything listed |
| SlaMonitor.AlertsAreExact | client/sla.go:110-175 | each id is alerted at most once, the alerted set is the ids alerted so far, and an id is in it exactly if some listing showed it overdue |
| SlaMonitor.AlertedOnlyGrows | client/sla.go:110-170 | the alerted set never shrinks |
| SlaMonitor.VerdictsAreSound | client/sla.go:157-183 | every alert and every warning is a real breach with its own data, and no listed execution gets both |
| SlaMonitor.DetectionIsTimely | client/sla.go:121-175 | an execution is alerted at the first poll at or after start plus threshold, not earlier, late by less than the gap between two polls |
| SlaMonitor.DetectedWithinAnInterval | client/sla.go:95-175 | listed at every tick, it is alerted less than 30 seconds late |
| SlaMonitor.AlertedIff | client/sla.go:110-175 | over every run, a listing is alerted exactly when it is overdue and no earlier listing under its id was |
| SlaMonitor.LaterRunsAreNeverAlerted | client/sla.go:110-175 | an id that was alerted is never alerted again, even for another run |
| SlaMonitor.ReusedIdGetsNoAlert | client/sla.go:110-175 | two polls after which a second, overdue run under a reused id has no alert |
| StartOrAttach.StartOrAttachWithOptions | client/start.go:54-98 | every reply path: empty id, started, other error, refusal followed by a describe that may fail; the caller's id and reuse policy are overridden, the rest of the options is not |
| StartOrAttach.CallIsExact | client/start.go:62-98 | exactly when a call fails, which run its handle names otherwise, what its flag says, and what it leaves on the server |
| StartOrAttach.CallIsItsEvents | client/start.go:54-98 | one call, with whatever others do between its requests, is exactly its start and describe steps in the model of many clients |
| StartOrAttach.AtMostOneRunning | client/start.go:28-33 | in every interleaving, whatever the clients ask for, each id has at most one running execution |
| StartOrAttach.NewHandlesAreNewRuns | client/start.go:71-78 | new handles of clients that asked for refusal correspond one-to-one with the runs their calls created; every run created by a returning call is held by its client |
| StartOrAttach.AttachedRunWasRunning | client/start.go:80-97 | an attached handle names a run of the id that was running at some moment between the refused start and the describe |
| StartOrAttach.EveryHandleWasRunning | client/start.go:71-97 | whatever is asked for, every handle names a run of the requested id that was running at some moment of the call |
| StartOrAttach.ClaimIsTrueIff | client/start.go:71-78 | in every interleaving and at any later time, the run of a new handle is one the client's own call created exactly when the id was not running; asking for refusal guarantees that |
| StartOrAttach.FlagIsTruthfulIff | client/start.go:71-84 | a successful start means a new run exactly when the options ask for refusal or the id was not running; an ended id is started anew, a running one never twice |
| StartOrAttach.WithoutRefusalHandlesAreShared | client/start.go:71-78 | two clients that did not ask for refusal can be told they started the same run |
| OptionsBuilder.Builder.constructor | activity/builder.go:35-45 | defaults, and the shared global slice |
| OptionsBuilder.Builder.WithNonRetryableErrors | activity/builder.go:98-101 | the list becomes a slice exactly as long as its fresh array, nil when empty |
| OptionsBuilder.Builder.AddNonRetryableErrors | activity/builder.go:105-108 | Go's append on the shared backing arrays |
| OptionsBuilder.Builder.Build | activity/builder.go:126-144 | the options share the builder's slice; timeouts that are not positive stay unset |
| OptionsBuilder.StepRefines | activity/builder.go:98-144 | one operation on aliased slices is the same operation on plain lists, for all builders and all built options |
| OptionsBuilder.BuildersAreIsolated | activity/builder.go:35-144 | over any run, no builder affects another, built lists keep their contents and the global list never changes |
| OptionsBuilder.EveryOperationListRuns | activity/builder.go:35-144 | every list of operations has such a run, so the isolation theorem is about all of them |
| OptionsBuilder.UnaffectedIff | activity/builder.go:105-108 | exactly when a slice of any origin is safe from appends to another |
| OptionsBuilder.IsolatedForeverIff | activity/builder.go:98-144 | for slices of any origin, over all further operations: builders and built lists stay isolated exactly when every builder is at the capacity of its array or nobody else reads that array beyond it |
| OptionsBuilder.CallerSliceIsSafeIff | activity/builder.go:98-101 | a caller-owned slice can always be handed to one builder, and to two exactly when it has no spare capacity |
| OptionsBuilder.SharedCallerSliceInterferes | activity/builder.go:98-108 | two builders given one caller-owned slice with spare capacity overwrite each other |

## Left out

- Dialing, TLS, health endpoint, shutdown, configuration defaults, metrics, logging, tracing: they pass settings to the SDK and observe; no state of theirs is read by the protocols.
- The audit trail: `AuditStep` and its variants build one entry from the context and hand it to a writer whose failure is ignored.
- Schedules: `CreateSchedule` checks that an id and a cron expression or an interval are given, copies the fields and calls the server.
- Workflow state: `SetStage` and `SetMeta` overwrite a field or a map entry, and a query handler returns a copy.
- `temporalcommon.go` and `testing/`: type aliases and forwarding functions, and mocks for the users' own tests.
- Panic recovery around activities (`activity/recover.go`): reflection; only the recovered handler panic is modelled.
- The numbers in the option presets: interpreted by the Temporal server.
- Compensation under a cancelled context: the loop still visits every step, but what runs is up to the SDK.
- ExecuteIdempotent with its default of seven days: a call of the modelled function with a constant TTL.
- A failed JSON decode may leave part of a value behind the result pointer; the model keeps results only of attempts that succeed.
- Sub-millisecond rounding of Redis expirations, and negative expirations other than "keep".
- Other users of a store's keys: while attempts run, a key is written by attempts only; foreign bytes in a check stand for everything else.
- The builder's other setters, each of which assigns one field that `Build` copies.
- `RegisterWorkflowWithSLA` with both thresholds zero: no monitor is started.
- The loan's search attributes: the stage shown in the UI is updated and errors are ignored.
- Lists a caller reads or extends after handing its slice to a builder: only builders and built options are observed.
- Float arithmetic: amounts are real numbers; the code only compares them and passes them on.
- Removal of closed runs by retention: a describe may fail, but a run never disappears.
- Listings return one page of at most 1000 executions; an execution beyond it is simply not in the poll.
- Alert callbacks run in their own goroutines; the model records that they were launched, not what they do.
