# The durable build subsystem, modelled and proved in Dafny

This project models four parts of the kernel and proves what they promise, over every input and every
interleaving of their transactions.

**The paid-lease ledger** (`Pricing`, `Ledger`, `LedgerInvariants`, `LedgerLaws`, `SpendBound`, `Charging`, `Budget`,
`BudgetLaws`, `Boundaries`, `LedgerStore`). Before a paid turn its worst case is held against a lease with four
ceilings; later the turn is settled, released or held as uncertain. An upgrade supersedes a lease by one with cumulative
ceilings and its balances, while old reservations are still open. Proved: exact conservation in every reachable state, a
hard bound on spending along upgrades, that a late lease admits no turn, at-most-once charging, the bound on rounding,
that a pause holds, when a chat call sends a turn, and how it closes its reservation.

**The task machine** (`Tasks`, `TaskInvariants`, `TaskLaws`, `TaskSteps`, `TaskStore`). Dependency-ordered tasks of many
sessions are claimed, finished, retried, recovered after a crash, paused, cancelled and quarantined by any number of
callers. Proved: single ownership, attempt accounting, dependency safety, that work claimed for the cloud is never
retried, progress, and that stopping is permanent.

**The orchestrator and its workers** (`Text`, `Paths`, `PathLaws`, `Evidence`, `GateLaws`, `Plan`, `Honesty`,
`Orchestrator`, `OrchestratorLaws`, `StepLaws`, `Teamwork`, `Lifecycle`, `WorkerLaws`, `TaskBoundaries`,
`BuildWorkers`). A step is a sequence of transactions; other callers' transactions come between any two of them. What a
step does is the trace of all of them. Proved: planners race safely, whatever any number of workers do together,
completion is earned and shows what each of the nine phases has to, and the worker loop ends.

**Context selection and memory files** (`Utf8`, `Lines`, `ContextSelection`, `ExcerptLaws`; `Json`, `MemoryFiles`,
`MemoryFileShape`, `MemoryFileLaws`, `MemoryFileLimits`). A greedy choice of excerpts under byte and file bounds, and a
printer and a parser that undo each other exactly on the memories that fit the format. Proved besides: where an excerpt
lies, what it holds, and which candidates are taken.

Each part has its transactions as functions on a state, the laws as lemmas about those functions, and classes whose
methods change rows in place and whose contracts tie the rows to the functions. `LedgerLaws`, `BudgetLaws`, `TaskSteps`,
`GateLaws`, `Lifecycle`, `StepLaws`, `ExcerptLaws`, `PathLaws` and `MemoryFileShape` say what an operation does and when
without calling the functions that decide it: conditions, constants and new rows are written out there. `Run`, `Steps`
and `Play` run any sequence of transactions by any callers. `dafny verify dfyconfig.toml` checks the whole project.

## Choices that matter

- A store method is one transaction that commits or is rolled back (`src/cofounder_kernel/db.py:190-203`). A unique
  index that a transaction runs into refuses it: one open lease, one lease per version, one event per request id and
  per turn of a lease, one run per attempt of a task (`src/cofounder_kernel/db.py:3723-3728`, `:3752-3756`,
  `:3778-3802`).
- So settling or marking a turn of a superseded lease is refused while another lease is open if it would reopen its
  lease, and releasing a turn that is not the newest makes the turn index refuse all later reserves of the lease. The
  laws of `Charging` and `Budget` state when. The expiry that a late reserve writes before it raises
  (`src/cofounder_kernel/build_store.py:1053-1058`) is rolled back with it; the budget service expires the lease
  afterwards.
- A token price is a non-negative real number of dollars per million, which is microdollars per token; a number of
  tokens times a price is repeated addition.
- Time is a natural number, as are tokens, microdollars and turns. Row ids are positions in the list of rows.
- A lease row carries three history columns that no transaction reads: what was approved for it, the balances it
  started with and whether an upgrade inserted it. A run row carries the files that the gate found.
- A memory's metadata stands for its fields sorted by key at every depth, the order in which they are printed.
- A good transaction, for a session, reports success of its tasks only with earned evidence, completes it only when the
  whole plan is there and has succeeded, and creates tasks in it only as a planner does. A founder's denial completes a
  session by decision (`src/cofounder_kernel/build_service.py:267-298`), and a service without an orchestrator completes
  it by its own single run (`:599-603`); neither is good in this sense. A caller is
  careful if its transactions are good for as long as all before them were.
- A step whose listed tasks have all succeeded completes the session, even if they are a mere beginning of the plan
  that another planner has not finished. So the law of teams asks that no step lists tasks like that. It is the exact
  condition (`CarefulExactlyIfFit`), and the other case can be reached (`TaskBoundaries`).
- Approvals bound what a chain of upgrades commits unless a lease is given a turn when it is not the newest. That takes
  an older lease to be opened again, which `OpensOlderExactly` gives the guards of; `BoundBreaksExactly` says which turn
  then loses the bound, and `LapsedChainExceedsApprovals` that the service gets there.
- A pause lasts exactly until the lease is upgraded, expired or exhausted (`PauseLastsExactly`). Whole service calls do
  none of these to a paused lease; a call whose refusal came before the pause can.
- A chat call leaves its reservation merely reserved exactly in the cases of `ChatLeavesReservedExactly`: the error text
  is blank, the reported usage cannot be read as numbers (`src/cofounder_kernel/anthropic_build.py:144` stands outside
  the handlers), an exception passes all handlers, or an upgrade overtook the lease by the time the turn is to be
  closed, or, where its settlement failed, by the time it is to be marked.

## Model

| member | source | states |
|---|---|---|
| Pricing.MicrodollarsIsCeiling | src/cofounder_kernel/build_budget.py:52-59 | the least whole number of microdollars that is not below the product of tokens and rate |
| Pricing.ExactInputCost | src/cofounder_kernel/build_budget.py:43-49 | if the reserved rate is at least every input rate, the exact price of four input counts within the bound is at most the exact price of the bound |
| Pricing.SettlementExcess | src/cofounder_kernel/build_budget.py:156-162 | usage within the reserved token bounds, at a reserved rate that is at least every input rate, costs at most three microdollars more than was reserved, after five roundings up against two |
| Pricing.WholeRatesNeverExceed | src/cofounder_kernel/build_budget.py:261-275 | no excess if every rate is a whole number of microdollars per token |
| Pricing.OneCategoryNeverExceeds | src/cofounder_kernel/build_budget.py:261-275 | no excess if at most one input category is used |
| Pricing.ReservedCostIs | src/cofounder_kernel/build_budget.py:261-275 | a reserved price is the input bound at the rate of its cache mode and the output bound at the output rate, each rounded up |
| Pricing.UsageCostIs | src/cofounder_kernel/build_budget.py:261-275 | a settled price is the five reported counts at their own rates, each rounded up |
| Pricing.ExcessOfThreeIsAttained | src/cofounder_kernel/build_budget.py:261-275 | the bound of three is tight: prices and a usage that reach it |
| Pricing.ExcessBoundedExactly | src/cofounder_kernel/build_budget.py:99-102 | the excess over all usages within the token bounds is bounded by three exactly if the reserved rate is at least every input rate; otherwise it has no bound |
| LedgerStore.BuildStore.CreateLease | src/cofounder_kernel/build_store.py:836-877 | inserts the next version with zero balances or leaves all rows alone; keeps the ledger invariant |
| LedgerStore.BuildStore.UpgradeLease | src/cofounder_kernel/build_store.py:886-955 | supersedes the current lease by one with cumulative ceilings and its balances, or leaves all rows alone; keeps the invariant |
| LedgerStore.BuildStore.ExpireLease | src/cofounder_kernel/build_store.py:1321-1339 | closes an open lease; keeps the invariant |
| LedgerStore.BuildStore.ExhaustLease | src/cofounder_kernel/build_store.py:1341-1364 | marks a lease exhausted unless another one is open; keeps the invariant |
| LedgerStore.BuildStore.PauseUsable | src/cofounder_kernel/build_store.py:686-692 | pauses the usable leases row by row, as quarantining a session does |
| LedgerStore.BuildStore.CreateReservation | src/cofounder_kernel/build_store.py:1001-1149 | returns an open reservation of the same request id, refuses a used id, an unusable or late lease and each ceiling in order, or holds the bounds and inserts the row |
| LedgerStore.BuildStore.SettleReservation | src/cofounder_kernel/build_store.py:1151-1244 | moves a held reservation from the held to the actual balances once, with the status and lease state that the usage calls for |
| LedgerStore.BuildStore.ReleaseReservation | src/cofounder_kernel/build_store.py:1246-1275 | takes a reserved row and its hold away, and nothing else |
| LedgerStore.BuildStore.MarkReservationUncertain | src/cofounder_kernel/build_store.py:1277-1299 | holds a reserved row as uncertain and pauses its lease |
| LedgerLaws.CreateLeaseExactly | src/cofounder_kernel/build_store.py:836-877 | a lease is created exactly if none is open; its version, ceilings, balances and expiry |
| LedgerLaws.UpgradeLeaseExactly | src/cofounder_kernel/build_store.py:886-955 | an upgrade commits exactly if the newest lease is open; the sum of each ceiling, the inherited balances, and an expiry counted from the upgrade |
| LedgerLaws.ReserveGrantsExactly | src/cofounder_kernel/build_store.py:1001-1149 | a new request is granted exactly if some lease is open and usable, has not expired, has room under each of the four ceilings, and its next turn number is free |
| LedgerLaws.ReserveHolds | src/cofounder_kernel/build_store.py:1092-1149 | then one reserved row is inserted, each balance rises by its bound, no other lease changes, and the lease warns exactly if a total reaches the percentage of its ceiling |
| LedgerLaws.ReserveRefusesExactly | src/cofounder_kernel/build_store.py:1033-1091 | the condition of each refusal, in the order in which the causes are looked at |
| LedgerLaws.ReserveRepeatsExactly | src/cofounder_kernel/build_store.py:1016-1032 | a used id is answered with its row exactly if that is still reserved |
| LedgerLaws.ExpiryIsApprovalPlusDuration | src/cofounder_kernel/build_store.py:836-877 | in every reachable state a lease expires its duration after the transaction that approved it |
| LedgerLaws.LateLeaseAdmitsNoTurn | src/cofounder_kernel/build_store.py:1053-1058 | no step of any run inserts a turn under a lease once the duration of its approval has passed |
| LedgerLaws.VerdictExactly | src/cofounder_kernel/build_budget.py:133-178 | a negative count settles nothing; a missing report costs what was reserved; any other settles at its own price and is an overage exactly if input, output or price exceed what was reserved |
| LedgerLaws.SettleExactly | src/cofounder_kernel/build_store.py:1151-1244 | when a held turn is settled, what leaves the held and enters the actual balances, and the state of its lease then; a closed turn is returned as it is |
| LedgerLaws.ReleaseExactly | src/cofounder_kernel/build_store.py:1246-1275 | a release is refused exactly if the row is there and not reserved; it takes back the row, its hold, its turn number and a warning |
| LedgerLaws.MarkExactly | src/cofounder_kernel/build_store.py:1277-1299 | a mark is refused exactly if another lease is open; it keeps the hold and pauses the lease |
| LedgerLaws.ExhaustLeaseExactly | src/cofounder_kernel/build_store.py:1341-1364 | a lease is exhausted exactly if no other one is open |
| LedgerLaws.PauseUsableExactly | src/cofounder_kernel/build_store.py:686-692 | quarantining pauses the active and warning leases and no other |
| LedgerInvariants.UpgradeTakesNewest | src/cofounder_kernel/build_store.py:898-910 | an upgrade commits exactly if the newest lease is open, and it takes that one |
| LedgerInvariants.ReachableConserves | src/cofounder_kernel/build_store.py:1128-1145 | in every reachable state one lease is open, versions are consecutive, and each lease balance is what it started with plus the charges of its own events, in all seven columns |
| LedgerInvariants.ClampsAreUnreachable | src/cofounder_kernel/build_store.py:1218-1240 | the clamped subtractions of settling and releasing never clamp |
| SpendBound.SpendBound | src/cofounder_kernel/build_store.py:886-955 | for every lease, open or closed, the chain of upgrades that ends in it has committed at most its approvals plus what settlements took above their own reservations, in each of four dimensions and wherever late settlements land, if no lease of the chain was given a turn when it was not the newest |
| SpendBound.SpendBoundUnlessReopened | src/cofounder_kernel/build_store.py:886-955 | so it holds for every lease of every run in which no transaction opens an older lease |
| SpendBound.OpensOlderExactly | src/cofounder_kernel/build_store.py:1193-1197 | which transaction first opens a lease other than the newest: while no lease is open, exhausting an older one, marking a turn of it, or settling a turn of it above its reservation or up to the warning threshold; none does while a lease is open |
| SpendBound.BoundBreaksExactly | src/cofounder_kernel/build_store.py:1061-1087 | a transaction loses the bound of a chain exactly if it inserts a turn under a lease of the chain that asks for more than is left of the approvals |
| SpendBound.HardSpendBound | src/cofounder_kernel/build_store.py:1061-1087 | with no settlement above its reservation, the events of the chain are within the balance of its last lease, and that within the sum of the approvals |
| Boundaries.LapsedChainExceedsApprovals | src/cofounder_kernel/build_store.py:1193-1197 | approvals and service calls, at times that do not fall, after which a chain has committed 440 of 400 approved: a late settlement reopened a superseded lease after its successor had expired |
| Charging.AtMostOnce | src/cofounder_kernel/build_store.py:1016-1032 | in every reachable state a request id has at most one row; a settled or uncertain row stands for ever, and its id is refused |
| Charging.RepeatedReserveIsNoOp | src/cofounder_kernel/build_store.py:1024-1030 | repeating a reserve that is still open returns the same row and changes nothing, whatever happened in between |
| Charging.RepeatedSettleIsNoOp | src/cofounder_kernel/build_store.py:1173-1174 | a settled row answers every later settlement with itself and changes nothing |
| Charging.ReleaseUndoesReserve | src/cofounder_kernel/build_store.py:1246-1275 | releasing what was just reserved restores all balances and turns |
| Charging.ReleaseCollidesExactly | src/cofounder_kernel/db.py:3755-3756 | after a release, the next turn number of the lease is taken exactly if the released turn was not the newest, which makes the unique index refuse every further reserve |
| Charging.InOrderReleasesNeverCollide | src/cofounder_kernel/db.py:3755-3756 | if only newest turns are released, no reserve is ever refused by the index |
| Charging.OutOfOrderReleaseBlocks | src/cofounder_kernel/db.py:3755-3756 | after an out-of-order release, no run without a release, whatever else is in it, inserts another turn under the lease |
| Budget.ServeIsRun | src/cofounder_kernel/build_budget.py:78-131 | each budget-service call is a run of ledger transactions, so the laws of runs hold for calls |
| LedgerStore.BuildBudgetService.Reserve | src/cofounder_kernel/build_budget.py:78-131 | checks prices and bounds, reserves, and closes the current lease after a refusal for room or lateness |
| LedgerStore.BuildBudgetService.Preflight | src/cofounder_kernel/build_budget.py:194-210 | admits only a usable, current lease and expires a late one |
| LedgerStore.BuildBudgetService.MarkUncertain | src/cofounder_kernel/build_budget.py:180-184 | refuses a blank reason |
| Budget.PauseLastsExactly | src/cofounder_kernel/build_store.py:1277-1299 | under any interleaving of transactions a pause lasts, and no event is inserted, exactly if none of them is an upgrade of the lease, its expiry or its exhaustion |
| Budget.PauseEndsExactly | src/cofounder_kernel/build_store.py:1321-1364 | the same for each transaction |
| Budget.PauseHolds | src/cofounder_kernel/build_budget.py:103-131 | while the current lease is paused, no sequence of service calls makes one of those transactions, so none inserts an event |
| Budget.OveragePausesUntilUpgrade | src/cofounder_kernel/build_budget.py:158-175 | after a settlement above its reservation no sequence of service calls reserves a turn |
| Budget.UncertaintyPausesUntilUpgrade | src/cofounder_kernel/build_budget.py:180-184 | after an uncertain mark no sequence of service calls reserves a turn |
| Boundaries.PauseIsLostBetweenTransactions | src/cofounder_kernel/build_budget.py:115-131 | why calls must not overlap: if a pause lands between the refusal of a reserve and the exhaustion of its lease, a later settlement makes the lease usable again |
| Boundaries.PauseRaceIsReachable | src/cofounder_kernel/build_budget.py:115-131 | the service reaches such a state |
| LedgerStore.AnthropicBuildModelClient.Chat | src/cofounder_kernel/anthropic_build.py:61-152 | one paid turn, with failures before and after sending, in reading the reported usage, in settling it, and by an exception that no handler catches, while other callers change the ledger before the reserve, before the close and between a failed settlement and its mark |
| Budget.MarkClosesExactly | src/cofounder_kernel/build_store.py:1277-1299 | marking leaves its row merely reserved exactly if the lease was overtaken by a newer open one |
| Budget.SettleClosesExactly | src/cofounder_kernel/build_store.py:1186-1204 | settling is refused exactly if a count is negative, or the lease was overtaken and settling would reopen it |
| Budget.ChatLeavesReservedExactly | src/cofounder_kernel/anthropic_build.py:118-152 | when a chat call leaves its reservation merely reserved, for each way it can go on: always if the usage cannot be read, and otherwise by what others did before the close and before the mark |
| Budget.UnreadableLeavesReserved | src/cofounder_kernel/anthropic_build.py:292-307 | an answer whose usage cannot be read changes nothing |
| Budget.UpgradeBeforeMarkLeavesReserved | src/cofounder_kernel/anthropic_build.py:144-152 | a negative count leaves its turn reserved if an upgrade comes between its failed settlement and its mark |
| Budget.UndisturbedChatCloses | src/cofounder_kernel/anthropic_build.py:118-152 | a call that nobody disturbs charges nothing; or, if the stream never started, it ends with the balances it found and no row; if the stream failed or a count is negative, with one uncertain row that is held under a paused lease; if it was answered, with one row settled as its usage calls for, which is spent; or, if the usage cannot be read, no handler catches an exception or the error text is blank, its row is left merely reserved |
| BudgetLaws.ChatSendsExactly | src/cofounder_kernel/anthropic_build.py:61-152 | an undisturbed call with a new id sends a turn, and ends as its provider lets it, exactly if egress is authorised, the preflight finds a usable and timely lease, the ask is acceptable and a lease has room and a free turn number; otherwise there is no row and no changed balance |
| BudgetLaws.EndsIsCharged | src/cofounder_kernel/anthropic_build.py:61-152 | the two outcomes exclude each other |
| BudgetLaws.UnauthorisedChatReservesNothing | src/cofounder_kernel/anthropic_build.py:94-104 | without authorised egress or without a usable and timely lease at the preflight, a call reserves nothing whatever others do |
| BudgetLaws.PreflightExactly | src/cofounder_kernel/build_budget.py:194-210 | the preflight grants exactly a usable lease before its expiry, and expires a usable late one |
| BudgetLaws.CheckExactly | src/cofounder_kernel/build_budget.py:86-102 | which asks are declined before the ledger is looked at, and with which reason |
| BudgetLaws.PricedExactly | src/cofounder_kernel/build_budget.py:86-114 | what is reserved for an ask |
| BudgetLaws.ReserveTurnGrantsExactly | src/cofounder_kernel/build_budget.py:78-131 | the service reserves exactly if prices are up to date, both bounds are positive, the id is not blank and some lease admits the turn |
| BudgetLaws.RefusedReserveCloses | src/cofounder_kernel/build_budget.py:115-131 | a reserve that is refused as late expires its lease, one without room exhausts it, and any other changes nothing |
| TaskStore.BuildStore.CreateSession | src/cofounder_kernel/build_store.py:99-132 | a new active session |
| TaskStore.BuildStore.CreateTask | src/cofounder_kernel/build_store.py:200-286 | returns the row with the same idempotency key, refuses foreign dependencies, or inserts a pending row; keeps the task invariant |
| TaskStore.BuildStore.ClaimTask | src/cofounder_kernel/build_store.py:326-404 | claims a ready row for one run, or leaves all rows alone; keeps the invariant |
| TaskStore.BuildStore.FinishTaskRun | src/cofounder_kernel/build_store.py:427-499 | ends a running run once, and its task only if the task still names that run; keeps the invariant |
| TaskStore.BuildStore.RecoverInterruptedRuns | src/cofounder_kernel/build_store.py:731-777 | the recovery loop, run by run, is the recovery of all running runs; keeps the invariant |
| TaskStore.BuildStore.RetryFailedLocalTask | src/cofounder_kernel/build_store.py:501-577 | makes a failed local row pending with one attempt more if need be |
| TaskStore.BuildStore.QuarantineSession | src/cofounder_kernel/build_store.py:652-696 | stops a session that is neither complete nor cancelled |
| TaskStore.BuildStore.CancelSession | src/cofounder_kernel/build_store.py:698-729 | drops what has not started and waits for what runs, from any status |
| TaskStore.BuildStore.Checkpoint | src/cofounder_kernel/build_store.py:172-198 | records a phase and completes the session at the last one, from any status |
| TaskStore.BuildStore.SetSessionStatus | src/cofounder_kernel/build_store.py:779-803 | pauses an active session and resumes a paused one, and refuses every other move |
| TaskInvariants.ClaimSucceedsExactly | src/cofounder_kernel/build_store.py:350-370 | a claim succeeds exactly for a named worker and a ready row, so the refusal for exhausted attempts and the index on attempt numbers are unreachable |
| TaskSteps.ClaimExactly | src/cofounder_kernel/build_store.py:326-404 | a claim commits exactly for a named worker and a pending task of an active session whose dependencies succeeded; it appends one running run with the task, worker and backend given and the next attempt number, and changes nothing but that task |
| TaskSteps.CloudClaimIsLast | src/cofounder_kernel/build_store.py:478-494 | after a claim for the cloud, in every continuation the task gets no further run, is never pending, and every retry of it is refused |
| TaskSteps.FinishExactly | src/cofounder_kernel/build_store.py:427-499 | a run ends once; a failed or interrupted task is pending again exactly if its run was local and it has attempts left |
| TaskSteps.RecoverExactly | src/cofounder_kernel/build_store.py:731-777 | recovery interrupts each running run and leaves its task pending or failed by the same rule; nothing else changes |
| TaskSteps.RetryExactly | src/cofounder_kernel/build_store.py:501-577 | a retry is granted exactly for a failed or interrupted task of an open session whose runs were all local, with a reason and an actor; it is pending then and may be attempted once more |
| TaskSteps.CreateTaskExactly | src/cofounder_kernel/build_store.py:200-286 | when a task is refused, found by its key or inserted, and the row that is inserted |
| TaskSteps.DependenciesInOrder | src/cofounder_kernel/build_store.py:200-286 | its dependencies are listed once each, in the order in which they are first named |
| TaskSteps.CancelExactly | src/cofounder_kernel/build_store.py:698-729 | cancelling drops the pending and blocked tasks of the session and waits exactly while one is running |
| TaskSteps.QuarantineExactly | src/cofounder_kernel/build_store.py:652-696 | a session is quarantined exactly if it is neither complete nor cancelled, with a reason and an actor |
| TaskSteps.PauseAndResumeExactly | src/cofounder_kernel/build_store.py:779-803 | a session is paused exactly if it is active and resumed exactly if it is paused |
| TaskSteps.CheckpointExactly | src/cofounder_kernel/build_store.py:172-198 | a checkpoint records its phase, and completes the session exactly at the last one |
| TaskSteps.CreateSessionExactly | src/cofounder_kernel/build_store.py:99-132 | a new session is active and awaits approval |
| TaskInvariants.LastRunIsNewest | src/cofounder_kernel/build_store.py:534-544 | a failed row always has a run, and none of its runs was in the cloud if the last one was not |
| TaskInvariants.StepKeepsValid | src/cofounder_kernel/build_store.py:326-404 | every transaction keeps the task invariant |
| TaskLaws.SingleOwner | src/cofounder_kernel/build_store.py:391-396 | under every interleaving a task is running exactly while a run of it is, that run is the one it names, and it has no second |
| TaskLaws.EndedRunIsFrozen | src/cofounder_kernel/build_store.py:448-449 | a run that has ended never changes again and every late report on it is refused |
| TaskLaws.RecoverSettles | src/cofounder_kernel/build_store.py:731-777 | after recovery nothing runs, cancelling sessions are cancelled and other sessions unchanged, and workers that outlived the crash can change nothing, ever after |
| TaskLaws.CloudRunIsLast | src/cofounder_kernel/build_store.py:478-486 | a cloud run is the last run its task ever gets, and every operator retry of it is refused |
| TaskLaws.DependencySafety | src/cofounder_kernel/build_store.py:356-367 | dependencies are older tasks of the same session; success is for ever; a task that ever ran has all dependencies succeeded, then and ever after |
| TaskLaws.Progress | src/cofounder_kernel/build_store.py:306-324 | an active session with a pending but no ready task has an older task that is running, failed, interrupted or cancelled |
| TaskLaws.AttemptAccounting | src/cofounder_kernel/build_store.py:368-396 | the attempt count is the number of runs, the runs are numbered from one up in order, and there are at most as many as the task was created with plus the retries that were granted |
| TaskLaws.StoppingIsPermanent | src/cofounder_kernel/build_store.py:646-650 | a session that is neither active nor paused never is again and gets no further run |
| TaskLaws.CancellationSettles | src/cofounder_kernel/build_store.py:815-834 | ending a run of a cancelling session cancels it exactly if that was its last running task |
| Paths.NormalFormIsContained | src/cofounder_kernel/build_orchestrator.py:597-604 | a normalised path is relative, never leaves its directory, and keeps the named components |
| Paths.SameNormalForm | src/cofounder_kernel/build_orchestrator.py:597-604 | two paths share a normal form exactly if they name the same components |
| Paths.NormalizeAgainExactly | src/cofounder_kernel/build_orchestrator.py:597-604 | normalising again changes nothing exactly if the normal form has no white space at its ends |
| Paths.NormalizeIsNotIdempotent | src/cofounder_kernel/build_orchestrator.py:597-604 | a path that is normalised twice to two different results |
| PathLaws.NormalizeRefusesExactly | src/cofounder_kernel/build_orchestrator.py:597-604 | a path with forward slashes, nothing to strip and no leading "./" is refused exactly if it is empty, absolute or has two dots between slashes or its ends |
| PathLaws.NormalizeTrims | src/cofounder_kernel/build_orchestrator.py:597-604 | back slashes and white space at the ends make no difference |
| PathLaws.ComponentsExactly | src/cofounder_kernel/build_orchestrator.py:597-604 | a path is cut at its slashes, and empty pieces and single dots name nothing |
| PathLaws.NormalizeSkipsDots | src/cofounder_kernel/build_orchestrator.py:597-604 | a leading "./" makes no difference if no white space comes after it |
| PathLaws.SlashesExactly | src/cofounder_kernel/build_orchestrator.py:597-604 | a back slash counts as a slash, and every other character as itself |
| Evidence.GateRaisesExactly | src/cofounder_kernel/build_orchestrator.py:468-478 | the gate raises exactly on a reported agent or review success with an invalid path in its contract or its changes |
| Evidence.GatePassesExactly | src/cofounder_kernel/build_orchestrator.py:458-532 | a gated success is exactly an earned one: writes name places within the contract, artifacts are present, no check failed it, an implementation was positively verified, no verifier failed it; the gate never improves a result |
| GateLaws.GateExactly | src/cofounder_kernel/build_orchestrator.py:459-532 | the answer of the gate case by case: what it lets through, when it raises, and which failure it names, with what was written outside the contract and what is missing |
| Plan.CreationExtendsChain | src/cofounder_kernel/build_orchestrator.py:64-79 | creating the next task of the plan lengthens the chain by one, creating an earlier one again returns it |
| BuildWorkers.BuildPlanner.MakePlan | src/cofounder_kernel/build_orchestrator.py:50-80 | the planning loop, with other callers between its transactions |
| OrchestratorLaws.PlannersMakeOneChain | src/cofounder_kernel/build_orchestrator.py:50-80 | whatever others do, a planner's transactions are good for as long as all were; and if all were, the plan ends as exactly nine tasks in a chain, which are returned |
| OrchestratorLaws.PlanningIsIdempotent | src/cofounder_kernel/build_orchestrator.py:37-37 | making the plan again changes nothing and returns the same nine tasks |
| Lifecycle.PlanIsLifecycle | src/cofounder_kernel/build_orchestrator.py:86-210 | the phase, kind, route, contract, key and attempts of each of the nine tasks, as a planner asks for them and as they stand in the end |
| Orchestrator.FirstReady | src/cofounder_kernel/build_store.py:306-324 | the ready task of the session of the earliest phase, and of those the oldest, if there is one, and none otherwise |
| StepLaws.PhaseOrderExactly | src/cofounder_kernel/build_types.py:34-46 | the order of the phases, by which the next task is chosen |
| BuildWorkers.BuildOrchestrator.RunNext | src/cofounder_kernel/build_orchestrator.py:245-332 | one step of the orchestrator: the store and the report are those of the trace of its own and the others' transactions |
| BuildWorkers.BuildOrchestrator.IdleResult | src/cofounder_kernel/build_orchestrator.py:554-575 | what is reported when nothing is ready, by the tasks as they were listed when the step began |
| StepLaws.StepRunsTask | src/cofounder_kernel/build_orchestrator.py:255-332 | an undisturbed step claims its ready task under the backend of its route, ends the run as the gate judges what the executor returned, and after a success records the phase |
| StepLaws.IdleStepReports | src/cofounder_kernel/build_orchestrator.py:554-575 | with nothing ready an undisturbed step reports failed tasks, completes a session of succeeded ones, and is idle otherwise |
| StepLaws.StoppedStepReports | src/cofounder_kernel/build_orchestrator.py:245-250 | on a missing or stopped session a step does nothing but report that |
| StepLaws.StoppedWorkIsDropped | src/cofounder_kernel/build_orchestrator.py:281-299 | if the session is cancelling, cancelled or quarantined when its executor returns, the run is ended as cancelled and no phase is recorded, whatever others do afterwards |
| StepLaws.RouteExactly | src/cofounder_kernel/build_orchestrator.py:338-387 | which tasks run locally and which in the cloud |
| StepLaws.DispatchExactly | src/cofounder_kernel/build_orchestrator.py:389-426 | a checkpoint succeeds by itself, an executor that throws has failed, and any other result is the executor's |
| StepLaws.SuccessIsExecuted | src/cofounder_kernel/build_orchestrator.py:389-426 | a gated success of a task that is no checkpoint is what its executor returned |
| OrchestratorLaws.NeverIdleOnPendingWork | src/cofounder_kernel/build_orchestrator.py:251-254 | on an active session of pending and succeeded tasks an undisturbed step is never idle, and completes the session exactly if all have succeeded |
| Honesty.StepKeepsEvidence | src/cofounder_kernel/build_orchestrator.py:279-299 | good transactions keep it that every recorded success of the session is earned, rests on a run, and came after the success of each dependency |
| Honesty.CompletionIsEarned | src/cofounder_kernel/build_orchestrator.py:300-314 | from no task, a beginning of the plan or the whole of it, under any interleaving of good transactions, a complete session has all nine tasks succeeded on earning evidence and in chain order |
| Lifecycle.CompleteIsShown | src/cofounder_kernel/build_orchestrator.py:300-314 | in a complete session the implementation has a positive mechanical check; the runs of requirements, architecture and planning left their document and wrote nothing else; no review failed; verification succeeded; and each phase had succeeded before the next one began |
| OrchestratorLaws.RunNextIsCareful | src/cofounder_kernel/build_orchestrator.py:245-332 | whatever others do, each transaction of a step is good for as long as all before it were, unless the tasks it lists have all succeeded and are only a beginning of the plan |
| Teamwork.Together | src/cofounder_kernel/build_orchestrator.py:245-332 | callers that are careful each make only good transactions together |
| Teamwork.LoopIsShifts | src/cofounder_kernel/build_workers.py:117-131 | the worker loop is a worker that takes a step in each round that finds its session active |
| Teamwork.TeamCompletesEarned | src/cofounder_kernel/build_orchestrator.py:568-574 | any number of workers and planners, from the first step of a session on: all they do is good, and a complete session has its plan earned; nothing is presumed of a worker but that none of its steps lists tasks which have all succeeded and are only a beginning of the plan |
| Lifecycle.TeamCompletesShown | src/cofounder_kernel/build_orchestrator.py:245-332 | the same of whatever any number of workers and planners completes |
| Teamwork.LoopsCompleteEarned | src/cofounder_kernel/build_workers.py:117-131 | the same for worker loops, in terms of their rounds |
| Teamwork.NewSessionIsHonest | src/cofounder_kernel/build_store.py:99-132 | whatever has happened before, a new session meets the premise of the law of teams |
| TaskBoundaries.CarefulExactlyIfFit | src/cofounder_kernel/build_orchestrator.py:568-574 | the condition is exact: an undisturbed step on an active session is careful if and only if it is met |
| TaskBoundaries.SucceededSoFarCompletes | src/cofounder_kernel/build_orchestrator.py:241-243 | a step completes a session whose listed tasks have all succeeded, whether or not the whole plan is there |
| TaskBoundaries.EarnedExactlyByWholePlan | src/cofounder_kernel/build_orchestrator.py:241-243 | with a plan that was only begun, such a completion is earned exactly if the whole plan was there |
| TaskBoundaries.CompletionWithoutPlan | src/cofounder_kernel/build_orchestrator.py:568-574 | a reachable session that is completed with eight of nine phases missing, after a planner stopped between two transactions |
| WorkerLaws.GoingRoundUsesFuel | src/cofounder_kernel/build_workers.py:120-130 | a step after which the loop goes round again has used up an attempt of its session, or the session has stopped for good |
| WorkerLaws.NeverBounded | src/cofounder_kernel/build_workers.py:117-131 | the loop never stops for want of rounds if the limit is at least two more than the attempts left and to come, whatever others do short of retries and tasks outside the plan |
| WorkerLaws.FreshFuel | src/cofounder_kernel/build_orchestrator.py:104-210 | a session without tasks has fourteen attempts to come |
| WorkerLaws.FreshSessionNeverBounded | src/cofounder_kernel/build_workers.py:21-27 | so a fresh session never reports "bounded" under the default limit of 500 |
| BuildWorkers.BuildExecutionManager.RunSession | src/cofounder_kernel/build_workers.py:117-131 | the bounded worker loop |
| StepLaws.EndsLoopExactly | src/cofounder_kernel/build_workers.py:117-131 | the loop goes round again exactly after a run that neither completed nor was cancelled, or on a session that the step found cancelling or quarantined |
| StepLaws.RoundExactly | src/cofounder_kernel/build_workers.py:117-131 | a round reports that the manager is stopping or the session is missing or not active, and otherwise is a step |
| BuildWorkers.BuildExecutionManager.Start | src/cofounder_kernel/build_workers.py:35-51 | starts a worker for an open session unless one is at work, and resumes a paused session |
| BuildWorkers.BuildExecutionManager.OneWorkerPerSession | src/cofounder_kernel/build_workers.py:45-50 | no session has two workers at once |
| BuildWorkers.BuildExecutionManager.Recover | src/cofounder_kernel/build_workers.py:98-111 | after boot recovery each of the newest ten thousand sessions that is active with pending work has a worker, unless the manager is stopping |
| Utf8.RoundTrip | src/cofounder_kernel/build_routing.py:430-433 | decoding undoes encoding (sections 3 and 4 of RFC 3629) |
| Utf8.CutDecodesToFitting | src/cofounder_kernel/build_routing.py:431-432 | cutting an encoded text at any byte and decoding without errors keeps the whole characters that fit |
| Utf8.FittingIsMost | src/cofounder_kernel/build_routing.py:431-432 | and no longer beginning of the text would fit |
| Lines.PrefixHasNoMoreLines | src/cofounder_kernel/build_routing.py:436-436 | a beginning of a text has no more lines than the text |
| ExcerptLaws.LinesExactly | src/cofounder_kernel/build_routing.py:419-419 | the kept lines are the lines of the text with what ends them, no end is split between two, and nothing is lost |
| ContextSelection.ExcerptIsPiece | src/cofounder_kernel/build_routing.py:413-446 | an excerpt is a contiguous piece of whole characters within the limit, begins where its first line begins, has line numbers of the file, and is marked as truncated exactly if it is not the whole file |
| ExcerptLaws.NoExcerptExactly | src/cofounder_kernel/build_routing.py:416-435 | there is no excerpt exactly if the limit is zero, the text is empty or the first character of the window does not fit |
| ExcerptLaws.ExcerptExactly | src/cofounder_kernel/build_routing.py:422-446 | an excerpt starts at the line where its window opens and is the longest beginning of whole characters of the window that fits; its last line, bytes and mark follow from that |
| ExcerptLaws.MatchIsHeld | src/cofounder_kernel/build_routing.py:422-432 | with the first matching line at index k it starts at line max(0, k - 20) + 1, and if the limit covers the window it is the up to 160 lines from there, so line k is in it |
| ExcerptLaws.NoMatchIsTop | src/cofounder_kernel/build_routing.py:422-432 | without a matching line it starts at line 1 |
| ContextSelection.RankedAreBest | src/cofounder_kernel/build_routing.py:305-333 | one candidate is ranked for each path, the first of its best-scoring ones, by falling score and then by path |
| ContextSelection.ExcerptsAreFaithful | src/cofounder_kernel/build_routing.py:413-446 | excerpts of any candidate under any limit keep its path, stay within the limit and are marked as truncated exactly if they are not all of it, which is what the laws of selection ask of them |
| ContextSelection.SelectionIsBounded | src/cofounder_kernel/build_routing.py:330-346 | the total is the bytes of the excerpts and within the bound, as is their number |
| ContextSelection.ExcerptIsTaken | src/cofounder_kernel/build_routing.py:337-342 | each excerpt is its candidate's under what the earlier ones left |
| ExcerptLaws.TakenExactly | src/cofounder_kernel/build_routing.py:333-342 | a ranked candidate is taken exactly if neither bound was reached by those before it and what is left for its file holds some of it |
| ExcerptLaws.TakenUnder | src/cofounder_kernel/build_routing.py:333-342 | each excerpt was made under the file limit or what was left of the byte bound, whichever is less |
| ExcerptLaws.EarlierExactly | src/cofounder_kernel/build_routing.py:333-333 | the order of paths: at the first difference the smaller character, or the shorter path |
| ContextSelection.SelectionIsInOrder | src/cofounder_kernel/build_routing.py:333-341 | paths differ and scores do not rise |
| ContextSelection.TruncatedExactly | src/cofounder_kernel/build_routing.py:343-345 | the selection is marked as truncated exactly if some ranked candidate is not included in full |
| ContextSelection.BuildContextSelector.Make | src/cofounder_kernel/build_routing.py:274-287 | limits must be positive, and a file's limit is at most that of all files |
| ContextSelection.BuildContextSelector.Rank | src/cofounder_kernel/build_routing.py:305-328 | the ranking loop |
| ContextSelection.BuildContextSelector.Select | src/cofounder_kernel/build_routing.py:289-346 | ranking, sorting and the greedy loop give the selection that the laws are about |
| Json.LoadsRoundTrip | src/cofounder_kernel/memory_files.py:46-57 | loading a printed value gives it back, for all values without fractions and with distinct keys (RFC 8259) |
| MemoryFiles.SerializeMemory | src/cofounder_kernel/memory_files.py:46-57 | the printing loop |
| MemoryFiles.ParseMemoryFile | src/cofounder_kernel/memory_files.py:60-87 | the reading loop |
| MemoryFileShape.SerializedExactly | src/cofounder_kernel/memory_files.py:46-57 | the lines of a memory file, in order |
| MemoryFileShape.ParsedExactly | src/cofounder_kernel/memory_files.py:60-87 | what each field of any memory file is read from, and what it is if its line is missing or empty |
| MemoryFileShape.ParsesExactly | src/cofounder_kernel/memory_files.py:60-65 | a text is a memory file exactly if its first line is a line of dashes |
| MemoryFileShape.LastLineCounts | src/cofounder_kernel/memory_files.py:66-76 | of the header lines that name a key the last one counts; its value is JSON, or else the text as it stands |
| MemoryFileLaws.RoundTrip | src/cofounder_kernel/memory_files.py:46-87 | printing and reading keeps every memory that fits the format, whatever its titles and bodies contain: quotes, line feeds, colons, lines of dashes |
| MemoryFileLimits.ReadBackFits | src/cofounder_kernel/memory_files.py:60-87 | whatever memory a file was printed from, what is read back fits the format |
| MemoryFileLimits.RoundTripExactly | src/cofounder_kernel/memory_files.py:46-87 | a memory survives exactly if its kind and source are not empty, its content is stripped and has line feeds only, and no header string has U+0085, U+2028 or U+2029 |

## Left out

- FastAPI routes, user interface, desktop shell, browser and command execution: input and output around the parts modelled here.
- SQLite itself, JSON columns, audit rows, artifacts and calibration records: a row is a value, and artifact ids of a finished run are not checked.
- Approval and work-item services: an approval is an input that carries tier limits, so the tier choice of `BuildService.approve` is not modelled.
- Leases of several providers in one session: one session, one provider and one model, so `preflight` does not compare models.
- The text of errors and refusals: a refusal is a constructor, and only whether a reason, worker or title is blank is modelled.
- A result of an executor that is no dictionary: it would raise after the claim, as an invalid path in the gate does, and the run would stay for recovery.
- Decimal precision of the pricing context: prices are exact.
- Failures of the database itself, such as a lock or a number beyond 64 bits: a transaction is refused only for the reasons in the source.
- What others do between a refused reserve and the closing of its lease, within one chat call: the two act as one there; `PauseIsLostBetweenTransactions` is about that gap.
- The date check of the pricing snapshot: whether it is due for review is an input.
- The router's answer for an adaptive task, a model's or executor's result and the files in the workspace: inputs of a step.
- Toolchain detection before planning and a result that cannot be written as JSON: both would raise before any row changes.
- The reads of one store method, such as the session and the tasks in `ready_tasks`: taken together as one.
- The position column of a task: rows of a session are in order of insertion, which is its order.
- Thread pool, lock and shutdown of the execution manager: starting is one step, stopping is an input of a round, and the number of pool threads is not modelled.
- The prose titles of the planned tasks: the name of the phase stands in.
- Which files are candidates, their scores, secret patterns, path resolution and the hash of an excerpt: candidates with scores and texts are inputs, as is which lines match.
- JSON numbers with a fraction or an exponent: kept as text when read, and excluded from the round trip.
- Unpaired surrogates in strings: no character of the model, so an escaped one does not read as JSON.
- Python's text for a value that is no string, and which fractions are zero: inputs of the memory reader, of which the exact law assumes that the text is not empty and has none of the three bare line breaks.
- Memory file names and the index page, authority policy, assessment scoring, channels, commitments, critic and brief: they would add easy members only.
