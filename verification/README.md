# TradeEdge: a verified model of its deterministic core

TradeEdge is a trading platform for paper and shadow trading. What it must not get
wrong is integer code and a few step protocols around append-only stores. This
project models that core in Dafny 4.11 and proves what it is for:

- **Fill accounting** (`AccountingModel`, `AccountingEngine`, `Valuation`). A
  position folds fills with weighted-average cost and truncating division. Over
  every fill history, realised profit is cash sold minus cash bought plus the signed
  open basis, to the last minor unit; the truncated basis exceeds the exact rational
  one by at most one unit per partial close; a valued portfolio conserves the same
  sum whatever the marks and the order of supply.
- **Publication of fills** (`AccountingProtocol`, `AccountingReplay`). Concurrent
  calls on any number of coordinators, with failures, shutdowns and crashes at any
  point, as a step machine over a checksum-chained store; the coordinator object; and
  replay, which reaches the same publications from any arrangement of a batch.
- **Order execution** (`OrderModel`, `OrderPlan`, `ExecutionProtocol`,
  `ExecutionRuns`, `ExecutionLoop`, `ExecutionSpin`, `IntentTotals`). The 13-state order, the plan and
  its cycle test, the coordinator against an unreliable broker as a step machine, and
  the coordinator object with the execute loop: at most one attempt per order,
  protection before exposure, when the loop ends and when not, who is to blame for a
  stuck leg, and how much an intent can lead to be traded.
- **Streaming numerics and ledgers** (`Ema`, `Candles`, `Qualification`). The
  fixed-point average against the exact one, the incremental candles against the
  grouping of ticks, the shadow ledger and its one-pass scorecard.
- **Canonical forms and indexes** (`CanonicalJson`, `InstrumentMaster`, `Strikes`).
  A JSON decoder and encoder against the grammar, a time-indexed one-to-one mapping,
  and the nearest-strike rule as it is written twice.

`Foundations` and `Sorting` hold what these share. `dafny verify dfyconfig.toml`
checks the project.

## Conventions

Times are integers and 0 stands for the absent time. Identities that the source
derives by SHA-256 are represented by what they digest, or by numbers that are equal
exactly when the identities are; so they are injective by construction, and nothing
is assumed. Quantities and money are `int64`; where the source's unchecked arithmetic
can wrap, the model wraps. A broker, a clock, a timeout, a cancelled context and a
storage failure are arbitrary choices. A class stands for an object whose fields the
source updates, and its `Valid()` is what every sequence of calls keeps.

## Where the code departs from what one would expect

- A failed publish while a pending order is being restarted releases the zero
  identity and keeps the order reserved
  (internal/execution/coordinator/coordinator.go:179-182). The model keeps this;
  `leaked` in the contracts of `RestartPending`, `HandleLeg`, `RunPass` and `Execute`
  names the one path on which a reservation is not given back. An order so left is
  never changed and never submitted again until a restart (`LeakRun`,
  `AbandonedForEver`).
- A restored store answers a report that it was restored with, when it comes again in
  every detail, with success, and changes nothing. A recovery is such a report: after a
  restart, resuming a plan at the time of the recovery takes it for progress, pass after
  pass, while the order stays UNKNOWN (`ResumeSpins`). A call at a time ends against
  every broker if and only if no restored recovery of the plan's orders bears that time
  and a filled quantity at which the order can be UNKNOWN: then within
  (2n + 1)(2n + 1) passes for n legs (`RunPasses`), otherwise some broker keeps it
  running for ever (`NotCalmSpins`, `SpinsForEver`).
- The transition table alone does not prevent a second submission
  (`SecondPendingIsAccepted`); the reservation does.
- The approved quantity of an intent is enforced plan by plan. Nothing stops a second
  plan under the same intent: two plans that differ only in when they were made are
  both accepted and registered, and 20 units are filled under an intent for 10
  (`TwoPlansExceed`). A limit on the fills of an intent holds in every run if and only
  if its plans that trade the instrument, times its quantity, are within the limit
  (`ApprovalHoldsExactly`).
- A lookup can recover an UNKNOWN order once for each broker identity it reports. An
  order recovered under its identity that becomes UNKNOWN again, as after a cancel
  whose answer was lost, stays UNKNOWN until the broker sends an event about it
  (`RecoveryExactly`, `RecoveredOnceIsStuck`); `LostCancelIsStuck` is such an order.
- A shadow trade's gross profit is computed without an overflow check. It is the true
  profit exactly when the product fits (`GrossWithinExcursions`). Fitting is
  sufficient for the profit to lie between the excursions and not necessary: accepted
  trades show the bound failing (`WrappedGrossEscapes`) and holding
  (`WrappedGrossMayStay`) when it does not fit. It holds exactly when the distances of
  the exit from the lowest and the highest price seen, times the quantity, cover the
  turns that the product takes round the 64-bit range (`ExcursionBoundExactly`).
- The scorecard's sums wrap. The profit is true exactly when the total fits, and the
  drawdown, when all profits fit, is the largest fall exactly when every fall fits
  (`DrawdownHoldsExactly`); three accepted trades show it reporting half
  (`DrawdownWraps`), and three that only gain, with a profit that does not fit, show it
  reporting a fall (`RiseReportedAsFall`).
- Token lookup trims the token it is given but not the tokens that are stored, so
  lookups are inverse exactly for tokens stored without surrounding white space
  (`RoundTripExactly`); an accepted master shows a padded token lost
  (`PaddedTokenIsLost`).
- Canonical JSON is its own canonical form exactly when it fits the byte limit
  (`CanonicalIsStableExactly`), since escaping may lengthen it: `EscapingLengthens` is
  a document of 10 bytes whose form has 15.

## Model

| member | source | states |
|---|---|---|
| Int64.CheckedAdd | internal/accounting/engine/engine.go:238-243 | the guard refuses exactly the sums that leave 64 bits |
| Int64.CheckedSubtract | internal/accounting/engine/engine.go:244-249 | refuses exactly the differences that leave 64 bits, and every subtraction of the least integer |
| AccountingModel.CompareIsTotalOrder | internal/accounting/model/fill.go:32-46 | ordering keys are totally ordered: antisymmetric, transitive, equal only when identical |
| AccountingModel.CompareIsLexicographic | internal/accounting/model/fill.go:32-46 | the order is by occurrence, then receipt, then identity |
| AccountingEngine.ShareIsWithinBasis | internal/accounting/engine/engine.go:223-230 | the truncated share of the basis never overflows, never exceeds the basis, and leaves a unit of basis per unit held |
| AccountingEngine.TransitionConserves | internal/accounting/engine/engine.go:144-211 | one fill: profit realised is cash plus the change of signed basis; the new net is the old plus the signed quantity; what it closes and what it opens add up to the quantity, to the change of the open units and of the basis, and to the profit; the basis still covers the net and is zero when flat |
| AccountingEngine.TransitionTracksExactBasis | internal/accounting/engine/engine.go:144-211 | one fill keeps the stored basis at or above the exact rational basis, by at most one more unit when it is a partial close |
| AccountingEngine.TransitionSucceedsExactly | internal/accounting/engine/engine.go:144-211 | from a reachable position a fill that fits fails only if an increase pushes the basis out of range; closing never fails |
| AccountingEngine.ApplyKeepsSound | internal/accounting/engine/engine.go:26-142 | every accepted fill leads to a sound snapshot with the right totals, dates and lot, and to an application that tells what was closed, opened and realised; the snapshot and application constructors never reject what the arithmetic produced |
| AccountingEngine.ApplySucceedsExactly | internal/accounting/engine/engine.go:26-142 | a position accepts a fill if and only if it is its own, later, of its currency, and every total fits |
| AccountingEngine.RefusalExactly | internal/accounting/engine/engine.go:26-66 | which refusal a fill meets: no fill, another position, not later, another currency, a total that does not fit |
| AccountingEngine.HistoryConserves | internal/accounting/engine/engine.go:67-124 | over every fill history realised profit is sold minus bought plus signed basis, net and totals are the sums of the fills, and only four refusals are possible |
| AccountingEngine.HistoryTracksExactBasis | internal/accounting/engine/engine.go:67-124 | over every history the stored basis exceeds the exact weighted-average basis by at least 0 and at most the partial closes since it last opened or flipped; it covers the net and is 0 exactly when flat; the net is never the least integer |
| PositionStore.BuildNeverRefusesWhatApplyAccepts | internal/accounting/storage/contracts.go:50-154 | the checkpoint and publication constructors accept whatever the engine accepted |
| PositionStore.ChainIsHistory | internal/accounting/storage/contracts.go:96-117 | the last snapshot of a committed chain is the fold of all its fills |
| PositionStore.ChainKeysIncrease | internal/accounting/engine/engine.go:34-36 | ordering keys strictly increase along a chain |
| PositionStore.PublishExtendsChain | internal/adapters/accounting/memory/store.go:159-239 | an append that succeeds was prepared from the current checkpoint and keeps every chain |
| PositionStore.PublishOverCurrent | internal/adapters/accounting/memory/store.go:159-239 | an append prepared from the current checkpoint is never a revision conflict; it is refused exactly when the fill identity is used in any position |
| AccountingProtocol.RunsKeepOneChain | internal/accounting/coordinator/coordinator.go:70-173 | in every interleaving with failures and crashes the publications of a position are one chain: revisions 1..n, parent checksums, increasing keys, no fill twice, final snapshot the fold |
| AccountingProtocol.RunsOnlyAppend | internal/accounting/coordinator/coordinator.go:70-148 | no run loses or reorders a committed publication |
| AccountingProtocol.StepsOnlyAppend | internal/accounting/coordinator/coordinator.go:70-148 | a step changes nothing committed, or appends one ready caller's publication |
| AccountingProtocol.CommittedFillIsNeverRepeated | internal/accounting/coordinator/coordinator.go:77-93 | a caller that raced past the duplicate lookup with a fill identity committed in any position commits nothing |
| AccountingProtocol.SoleRunStaysUpToDate | internal/accounting/coordinator/coordinator.go:150-173 | with one coordinator reservations exclude each other, match the calls that hold them, and keep what a call has read current |
| AccountingProtocol.SoleCoordinatorNeverConflicts | internal/accounting/coordinator/coordinator.go:70-173 | in every run of one coordinator no append is a revision conflict, and one is refused only when its fill identity is committed somewhere |
| AccountingCalls.Coordinator.Reserve | internal/accounting/coordinator/coordinator.go:150-165 | the table refuses exactly when closed or taken, telling a duplicate from a busy position |
| AccountingCalls.Coordinator.Release | internal/accounting/coordinator/coordinator.go:167-173 | gives back one entry and the count stays the number of entries |
| AccountingProtocol.ClosedAdmitsNobody | internal/accounting/coordinator/coordinator.go:150-189 | after shutdown, in every continuation, the calls that hold a reservation are among those that held one |
| AccountingProtocol.ShutdownIsFinal | internal/accounting/coordinator/coordinator.go:175-189 | once closed with nothing in flight, whatever is called commits nothing |
| AccountingProtocol.CrashForgets | internal/accounting/coordinator/coordinator.go:150-173 | a crashed coordinator comes back open with nothing reserved; the repository and the others do not notice |
| AccountingCalls.Coordinator.Apply | internal/accounting/coordinator/coordinator.go:70-148 | a whole call does to the store what its specification says or answers why not, and leaves the table as it was |
| AccountingCalls.AnswersMean | internal/accounting/coordinator/coordinator.go:70-148 | newly committed means exactly this fill was appended to its position, replayed that the very record was there, collision that its identity belongs to another record; any other answer changes nothing |
| AccountingCalls.CallIsFiveSteps | internal/accounting/coordinator/coordinator.go:70-148 | an undisturbed call is five steps of the protocol, ending in the same store |
| AccountingReplay.Replay | internal/accounting/replay/replay.go:26-49 | the loop applies a sorted arrangement of the batch and stops at the first error |
| AccountingReplay.CanonicalIsCanonical | internal/accounting/replay/replay.go:33-41 | the canonical history of a position holds exactly its fills, each once, by increasing key |
| AccountingReplay.ReplayReachesCanonical | internal/accounting/replay/replay.go:26-49 | any arrangement with any repetitions, onto any canonical prefixes, ends with the canonical history in every touched position and touches no other |
| AccountingReplay.FillsDetermineChain | internal/accounting/storage/contracts.go:50-154 | two chains of the same fills are the same publications, checksums included |
| AccountingReplay.ReplayIsArrangementIndependent | internal/accounting/replay/replay.go:26-49 | two replays of the same set of fills leave identical publications |
| Valuation.EvaluationConserves | internal/accounting/valuation/engine.go:30-113 | realised plus unrealised profit is sold minus bought plus signed market value; numbers are present exactly with status COMPLETE or STALE |
| Valuation.StatusExactly | internal/accounting/valuation/engine.go:30-113 | COMPLETE exactly when flat or marked by a usable and recent mark, STALE exactly when usable and not recent, UNAVAILABLE otherwise, with the reason, all by the fields of the mark |
| Valuation.EvaluationFailsExactly | internal/accounting/valuation/engine.go:78-112 | a request is invalid exactly for a missing position, time or policy; any other fails if and only if the mark is usable and market value or gross profit does not fit; the guard on the difference never fires |
| Valuation.FoldSums | internal/accounting/valuation/engine.go:115-216 | the accumulating loop produces sums and exposures over all valuations |
| Valuation.FoldExactly | internal/accounting/valuation/engine.go:115-190 | valuations are refused exactly when one is of another portfolio, repeats a position, is in another currency or makes a sum overflow, and the first such one names the error |
| Valuation.FoldCounts | internal/accounting/valuation/engine.go:115-216 | open, valued, stale and missing are counts over the valuations, the reasons are theirs, and the status follows |
| Valuation.PortfolioStatusExactly | internal/accounting/valuation/engine.go:115-226 | UNAVAILABLE exactly when something is open and nothing valued, else PARTIAL, STALE or COMPLETE by the counts; totals exactly in the last two |
| Valuation.ConcludeRefusesExactly | internal/accounting/valuation/engine.go:185-226 | summed totals are refused exactly when there is no currency or a published total does not fit |
| Valuation.Aggregate | internal/accounting/valuation/engine.go:115-226 | the loop over the sorted valuations computes the portfolio or the first error |
| Valuation.PortfolioConserves | internal/accounting/valuation/engine.go:115-216 | for every set of histories and marks, a COMPLETE or STALE portfolio has total profit equal to sold minus bought plus net exposure |
| Valuation.AggregateIgnoresSupplyOrder | internal/accounting/valuation/engine.go:115-150 | every two sorted arrangements of one supply give the same portfolio or both fail |
| OrderModel.ReportStep | internal/execution/model/order.go:305-361 | what one accepted report can and cannot change: a state is entered only by the report of its name, from the states listed for it; any other accepted report leaves the state; filled, broker identity and times follow the report |
| OrderModel.ReportTable | internal/execution/model/order.go:363-415 | the whole table of states and reports: which pairs are accepted and where each leads |
| OrderModel.RefusalExactly | internal/execution/model/order.go:305-361 | which refusal a report meets: more than the leg, fills that do not add up, a state that cannot take it |
| OrderModel.OrderRun | internal/execution/model/order.go:305-415 | over every report sequence filled is the sum of fills, monotone, complete exactly when FILLED; terminal states absorb; a broker identity never changes; PLANNED is never re-entered |
| OrderModel.CancelledIsLeftOnlyByFill | internal/execution/model/order.go:394-415 | a cancelled order found in another state has received a fill |
| OrderModel.PlainReportAcceptedExactly | internal/execution/model/order.go:305-361 | the exact condition under which a report without a fill is accepted, by state and report type |
| OrderModel.FillReportAcceptedExactly | internal/execution/model/order.go:305-361 | the exact condition under which a report with a fill is accepted, by state and report type |
| LegGraph.Search.Visit | internal/execution/model/plan.go:137-152 | the depth-first search reports a cycle only with one on its stack, and otherwise extends a topological order |
| LegGraph.HasCycle | internal/execution/model/plan.go:131-160 | terminates on every graph, whatever order it visits, and is true exactly when a dependency cycle exists; otherwise there is a topological order |
| LegGraph.TopologicalIsAcyclic | internal/execution/model/plan.go:131-160 | a graph listed in topological order has no cycle |
| OrderPlan.CheckIntentLegs | internal/execution/model/intent.go:77-95 | accepts exactly distinct legs within their approved bounds |
| OrderPlan.IntentAcceptedExactly | internal/execution/model/intent.go:77-95 | the exact condition on an intent's legs, by the last bound approved for each instrument |
| OrderPlan.BoundFor | internal/execution/model/intent.go:77-80 | the last bound listed for the instrument, or none is listed |
| OrderPlan.NewOrderPlan | internal/execution/model/plan.go:55-129 | accepts a plan if and only if the stated conditions hold of the sorted legs, and delivers a topological order |
| OrderPlan.PlanAcceptedExactly | internal/execution/model/plan.go:55-119 | the exact condition on the drafts of a plan, field by field |
| OrderPlan.LegsRepeatDrafts | internal/execution/model/plan.go:91-119 | the legs of an accepted plan say what its drafts say, and depend on the legs of the instruments named |
| OrderPlan.AcceptedPlanIsSafe | internal/execution/model/plan.go:71-119 | accepted legs are distinct, authorised, depend only on each other, and every exposing sale waits for every protective purchase, of which there is one |
| OrderPlan.FillsStayWithinApproval | internal/execution/model/intent.go:77-95 | whatever reports an order of one plan accepts, its fills stay within the approved units of its instrument |
| IntentTotals.FillsWithinPlans | internal/execution/model/intent.go:77-95 | in every run the fills on an instrument over all stored orders of an intent are at most its plans that trade it times its quantity, and times the approved maximum |
| IntentTotals.EverythingCanFill | internal/execution/coordinator/coordinator.go:163-235 | some run of the coordinator fills every registered plan completely, in dependency order |
| IntentTotals.ApprovalHoldsExactly | internal/adapters/execution/memory/store.go:68-131 | a limit on an intent's fills holds in every run if and only if plans times quantity are within it; the intent's quantity exactly when at most one plan trades the instrument |
| IntentTotals.AcceptedIsRegistrable | internal/execution/model/plan.go:55-129 | what the plan constructor accepts meets the conditions on a registration |
| IntentTotals.TwoPlansExceed | internal/adapters/execution/memory/store.go:68-131 | one intent for 10 units, two accepted plans, 20 units filled |
| IntentTotals.TwoPlansMayFit | internal/execution/model/intent.go:77-95 | with 20 units approved the same two plans of 10 stay within the approval: plans times quantity decides |
| ExecutionRuns.ReportRun | internal/execution/coordinator/coordinator.go:441-476 | reserving an order, publishing reports and releasing it is a run that changes the store alone |
| ExecutionRuns.SubmitRun | internal/execution/coordinator/coordinator.go:319-364 | an undisturbed submission, with any number of broker calls and any reports after, is a run of the step machine |
| ExecutionRuns.SubmitEffectIsRun | internal/execution/coordinator/coordinator.go:319-364 | whatever the coordinator object's submission did, a run of the step machine ends in the same store and submissions |
| OrderStore.PublishKeepsExplained | internal/adapters/execution/memory/store.go:307-387 | every stored order is what its logged reports make of it, and no report or fill is logged twice |
| OrderStore.LoggedMark | internal/execution/model/order.go:305-415 | every logged report has left its mark on the order: stage, broker identity, filled quantity |
| OrderStore.PublishStep | internal/adapters/execution/memory/store.go:307-387 | an append changes one order, forward only |
| ExecutionProtocol.RunKeepsInv | internal/execution/coordinator/coordinator.go:163-231 | every run keeps reservations exclusive, copies of FILLED true, and submissions announced, released and agreeing |
| ExecutionProtocol.OneAttemptPerOrder | internal/execution/coordinator/coordinator.go:319-364 | over every run with restarts anywhere, all submissions of an order carry one attempt, announced in the log before |
| ExecutionProtocol.PendingIsNeverResubmitted | internal/execution/coordinator/coordinator.go:175-193 | an order past PLANNED that nobody is sending is never submitted again |
| ExecutionProtocol.ProtectionPrecedesExposure | internal/execution/coordinator/coordinator.go:168-224 | when an exposing sale has been submitted, every protective purchase of the plan is FILLED, although the gate reads an old copy |
| ExecutionProtocol.FilledStaysFilled | internal/execution/model/order.go:394-415 | FILLED is for ever |
| ExecutionProtocol.EventsCountOnce | internal/execution/coordinator/coordinator.go:478-549 | however events are redelivered, each adds at most one revision and its fill is counted once |
| ExecutionProtocol.AbandonedForEver | internal/execution/coordinator/coordinator.go:179-182 | an order reserved and held by nobody stays so, is never changed and never submitted, in every continuation without a restart |
| ExecutionRuns.LeakRun | internal/execution/coordinator/coordinator.go:175-182 | the failing restart path leaves an order reserved and held by nobody |
| ExecutionProtocol.SecondPendingIsAccepted | internal/execution/model/order.go:409-415 | the transition table accepts a second SUBMISSION_PENDING report |
| PlanMeasure.FirstNeverGrows | internal/execution/coordinator/coordinator.go:163-235 | whatever happens to the store, 2·CREATED + PLANNED does not grow |
| PlanMeasure.LessIsLighter | internal/execution/coordinator/coordinator.go:163-235 | a smaller pair of counts is a smaller number below (2n + 1)(2n + 1) |
| PlanMeasure.SecondFollowsOneOrder | internal/execution/coordinator/coordinator.go:163-235 | 2·SUBMISSION_PENDING + UNKNOWN changes by what the one changed order contributes |
| ExecutionLoop.Coordinator.Restored | internal/adapters/execution/memory/store.go:205-304 | a coordinator on a restored store starts with every order, report and submission of the old one, and no reservation |
| ExecutionLoop.Coordinator.PublishEvent | internal/execution/coordinator/coordinator.go:441-476 | publishes one report, or nothing, or succeeds without effect exactly on a restored report; collisions are told apart; without a fault of the repository it fails only where the store refuses; the store moves forward |
| ExecutionLoop.Coordinator.PublishBrokerEvent | internal/execution/coordinator/coordinator.go:498-549 | an event answered with success or passed over was appended with what it says, or its identity or fill was known, or its order would have refused it or stayed as it was; a known one is a success exactly when it says the same; each refusal has its cause; the reservation is given back |
| ExecutionLoop.Coordinator.DrainEvents | internal/execution/coordinator/coordinator.go:478-496 | the cursor moves, to the next one delivered, exactly when every event of the batch was handled so, one after the other; a failed batch is delivered again |
| ExecutionLoop.Coordinator.RecoverUnknown | internal/execution/coordinator/coordinator.go:419-428 | asks the broker once and never submits; recovers only from an answer that describes the leg, under its identity, and then unless the store refuses; changes one order at most, and does not recover twice under one identity |
| ExecutionLoop.RecoveryExactly | internal/execution/coordinator/coordinator.go:419-428 | what a lookup does to an UNKNOWN order: resolves it exactly when the identity given is new and not another's, succeeds without effect exactly when the same recovery was restored |
| ExecutionLoop.RecoveredOnceIsStuck | internal/execution/coordinator/coordinator.go:419-428 | an UNKNOWN order recovered before stays as it is in every continuation without a broker event about it |
| ExecutionLoop.Coordinator.Submit | internal/execution/coordinator/coordinator.go:319-364 | an order that is not PLANNED is left alone; otherwise all broker calls carry one attempt, follow its SUBMISSION_PENDING report, and number at most one more than the retries, and that many when none was answered; the last reply is what the order then shows: SUBMITTED under the identity given, REJECTED, or UNKNOWN unless a lookup found it; the effect is one that the step machine has |
| ExecutionLoop.Coordinator.PublishReply | internal/execution/coordinator/coordinator.go:341-363 | the broker's reply is recorded as what it is, or the order stays SUBMISSION_PENDING because the repository failed or for a stated obstacle |
| ExecutionLoop.Coordinator.PublishLost | internal/execution/coordinator/coordinator.go:341-355 | a reply that says nothing leaves the order UNKNOWN, or SUBMITTED by the lookup that follows |
| ExecutionLoop.RefusedIsObstructed | internal/execution/model/order.go:305-361 | a report of the coordinator's own is refused, in a state that admits it, only when revisions or its identity are used up or the broker's identity is another |
| ExecutionLoop.Coordinator.RestartPending | internal/execution/coordinator/coordinator.go:175-193 | a pending order becomes UNKNOWN or SUBMITTED by one lookup and without a submission; its reservation stays exactly when the publish failed, which without a fault has a stated obstacle |
| ExecutionLoop.Coordinator.HandleLeg | internal/execution/coordinator/coordinator.go:173-231 | what one leg of a pass does: no progress means no change, progress without a drain advances this order alone or replays a restored recovery, a drain leaves it past PLANNED |
| ExecutionLoop.Coordinator.RunPass | internal/execution/coordinator/coordinator.go:163-235 | a pass that reports progress lowers the lexicographic measure unless a restored recovery was replayed; one that reports none changes nothing and finds every leg settled |
| ExecutionLoop.Coordinator.RunPasses | internal/execution/coordinator/coordinator.go:163-235 | where no restored recovery can be replayed the loop ends against every broker, within a number of passes given by the legs, and leaves every leg settled |
| ExecutionLoop.CalmStays | internal/execution/model/order.go:305-415 | no report of the coordinator or the broker makes a restored recovery replayable |
| ExecutionSpin.NotCalmSpins | internal/adapters/execution/memory/store.go:328-345 | where one can be replayed, at most two broker events and one lookup answer make a recovery that succeeds and changes nothing |
| ExecutionSpin.SpinsForEver | internal/adapters/execution/memory/store.go:328-345 | any number of such recoveries leaves the store as it is |
| ExecutionSpin.PassesLeadNowhere | internal/execution/coordinator/coordinator.go:194-204 | as steps: reserve, publish with success, release, any number of times, leads back to the same state |
| ExecutionSpin.LostCancelIsStuck | internal/execution/coordinator/coordinator.go:598-635 | an accepted history of an order recovered once and UNKNOWN again |
| ExecutionSpin.ResumeSpins | internal/execution/coordinator/coordinator.go:194-204 | the same history restored: resuming at its time takes a recovery without effect for progress |
| ExecutionLoop.Coordinator.Execute | internal/execution/coordinator/coordinator.go:106-256 | refused calls change nothing; a call ends unless a restored recovery can be replayed; the plan reservation is given back when it ends; the outcome is what the final states call for; an unavailable event stream or an unknown submission never aborts it; submissions stay announced, released and of one attempt per order |
| ExecutionLoop.RefusalExactly | internal/execution/coordinator/coordinator.go:106-149 | each refusal of a call, by plan, time, states of the legs and what is in progress |
| ExecutionLoop.OutcomeExactly | internal/execution/coordinator/coordinator.go:236-256 | each outcome, by the states of the legs |
| ExecutionLoop.PendingWaits | internal/execution/coordinator/coordinator.go:236-256 | a pending outcome names a leg that waits |
| ExecutionLoop.Coordinator.RequestCancel | internal/execution/coordinator/coordinator.go:598-635 | announces, then asks the broker for, the cancellation of an order at the broker, whenever it is free and the repository does not fail; leaves orders elsewhere alone and UNKNOWN when the answer is lost; drains events when it is not; never submits |
| ExecutionLoop.StuckLegBlamesAnother | internal/execution/coordinator/coordinator.go:163-235 | when passes stop with a PLANNED leg, its dependencies lead to a leg neither PLANNED nor FILLED |
| ExecutionLoop.SubmittedSaleIsProtected | internal/execution/coordinator/coordinator.go:218-230 | in every state of the coordinator object a submitted exposing sale has every protective leg FILLED |
| Ema.RoundedFraction | internal/shadowruntime/ema.go:109-126 | succeeds exactly when the factors are positive and the product fits, and is then the nearest integer |
| Ema.NearestIsUnique | internal/shadowruntime/ema.go:114-124 | nearest with ties away from zero determines one integer |
| Ema.RoundIsOdd | internal/shadowruntime/ema.go:114-124 | rounding is odd-symmetric |
| Ema.AverageIsBounded | internal/shadowruntime/ema.go:82-107 | the average stays within any bounds on the scaled closes |
| Ema.AverageTracksExact | internal/shadowruntime/ema.go:82-107 | the average is within (period+1)/4 units of the exact rational average, for every length |
| Ema.FixedEma | internal/shadowruntime/ema.go:82-107 | the loop computes the average, succeeds exactly under the stated conditions, and never takes the addition guard |
| Ema.AcceptedAverage | internal/shadowruntime/ema.go:82-107 | an accepted average lies between the least and greatest scaled close and near the exact one |
| Ema.ModerateClosesAreAccepted | internal/shadowruntime/ema.go:88-97 | closes up to half the scalable range are always accepted |
| CandleModel.MinutesAreExact | internal/shadowruntime/candle.go:84-98 | on accepted ticks the minutes are increasing and exactly those that have a tick |
| CandleModel.ExtremesOfGroup | internal/shadowruntime/candle.go:117-127 | high and low are prices of the group and bound them all |
| CandleModel.BatchGrows | internal/shadowruntime/candle.go:84-111 | one more tick extends the last candle of the grouping or starts one |
| CandleModel.BatchConservesTicks | internal/shadowruntime/candle.go:70-127 | every accepted tick is in exactly one candle |
| CandleAggregation.Advance | internal/shadowruntime/candle.go:84-111 | an accepted tick keeps the series equal to the grouping of all accepted ticks, with the last 64 completed and gaps accounted for; the late-minute branch is unreachable |
| CandleAggregation.CandleAggregator.Accept | internal/shadowruntime/candle.go:70-111 | refuses exactly invalid, duplicate and out-of-order ticks, changing at most a counter; otherwise adds the tick and returns the candle it completes |
| CandleAggregation.RefusalExactly | internal/shadowruntime/candle.go:70-83 | each refusal of a tick, by its fields and the last accepted one |
| CandleAggregation.CountedExactly | internal/shadowruntime/candle.go:70-83 | a refused tick is counted by its refusal and changes nothing else |
| CandleAggregation.RecentAreTheLatest | internal/shadowruntime/candle.go:98-111 | the candles kept are the latest 64, in order |
| QualificationModel.SelectPrice | internal/qualification/model.go:162-174 | a selected price is positive and, from a proper book, within it |
| QualificationModel.CrossingCostsTheSpread | internal/qualification/model.go:162-174 | entering and leaving on one quote costs exactly the spread with a proper book and nothing on a last trade; when there is a price at all |
| QualificationModel.ApprovedAreTradedOrOpen | internal/qualification/engine.go:36-87 | approved records are trades plus open positions, and no signal is traded twice |
| QualificationModel.GrossWithinExcursions | internal/qualification/engine.go:219-233 | gross profit is true exactly when the product fits, and then lies between worst and best excursion times quantity |
| QualificationModel.ExcursionBoundExactly | internal/qualification/engine.go:219-233 | gross profit lies between the excursions if and only if the distances of the exit from the lowest and highest price seen, times the quantity, cover the turns of the product |
| QualificationEngine.WrappedGrossEscapes | internal/qualification/engine.go:233-233 | an accepted signal and exit whose wrapped profit escapes the excursions |
| QualificationEngine.WrappedGrossMayStay | internal/qualification/engine.go:233-233 | an accepted signal, observation and exit whose profit does not fit and stays within them |
| QualificationModel.ResolvedStayIsTransitive | internal/qualification/engine.go:143-164 | across any number of calls a resolved horizon is never touched again |
| QualificationEngine.MeasuringKeepsOk | internal/qualification/engine.go:143-164 | an observation resolves horizons within their lateness window, with the change from the signal's entry price, or as missed, and touches no resolved one |
| QualificationEngine.HorizonExactly | internal/qualification/engine.go:143-164 | a due horizon is resolved, available exactly within its window, with the movements, the profit and the truncated basis points; any other is left |
| QualificationEngine.ObservingSpans | internal/qualification/engine.go:134-164 | whatever a horizon has measured lies within the excursions of its open position, and of the trade it became |
| QualificationEngine.ClosingKeepsOk | internal/qualification/engine.go:201-251 | closing turns the open position into a trade within its excursions and keeps approved signals balanced |
| QualificationEngine.Engine.RecordSignal | internal/qualification/engine.go:36-87 | records exactly the signals its verdict allows; one open position at most |
| QualificationEngine.SignalExactly | internal/qualification/engine.go:36-87 | which signals are accepted, field by field |
| QualificationEngine.RepeatedSignalExactly | internal/qualification/engine.go:36-87 | a repeated signal is a duplicate when it says the same and a conflict when not |
| QualificationEngine.OpenedAsSignalled | internal/qualification/engine.go:62-107 | the record, its horizons and the position say what the signal says |
| QualificationEngine.Engine.Observe | internal/qualification/engine.go:109-168 | marks the position with the exact extremes of all its changes and measures due horizons |
| QualificationEngine.ObservedExactly | internal/qualification/engine.go:109-142 | which observations are accepted and how others are refused; what the position then shows, with the extremes and when they were reached |
| QualificationEngine.Engine.Measure | internal/qualification/engine.go:143-164 | the nested loop measures every horizon of the observed record and no other |
| QualificationEngine.Engine.MarkHorizonUnavailable | internal/qualification/engine.go:170-193 | resolves exactly one waiting horizon of the signal and duration, or none is waiting; accepts three reasons |
| QualificationEngine.Engine.Close | internal/qualification/engine.go:201-251 | moves the open position, as the trade that the exit makes of it, to the end of the trades |
| QualificationEngine.ExitExactly | internal/qualification/engine.go:201-233 | which exits are accepted, and every field of the trade |
| Scorecards.RunningIsWrapped | internal/qualification/engine.go:410-436 | the running profit is the true one wrapped, so true exactly when it fits |
| Scorecards.DrawdownHoldsExactly | internal/qualification/engine.go:410-436 | when the profits fit, the one-pass drawdown is the largest fall from any earlier to any later cumulative profit if and only if every fall fits |
| Scorecards.Curve | internal/qualification/engine.go:410-436 | the loop computes the wrapped profit and the drawdown with these properties |
| Scorecards.DrawdownWraps | internal/qualification/engine.go:410-436 | three accepted trades whose profits fit and whose drawdown is reported as half the largest fall |
| Scorecards.RiseReportedAsFall | internal/qualification/engine.go:410-436 | three accepted gains whose total does not fit and whose drawdown is not 0 |
| Scorecards.Score | internal/qualification/engine.go:389-436 | records and trades are each counted once, the excursions are 0 or attained and bound every trade, profit and drawdown are those of the curve |
| JsonDecoder.DecodeIsSound | internal/canonicaljson/canonical.go:48-115 | what is decoded is well formed, within limits, and rendered by the tokens consumed |
| JsonDecoder.DecodeIsComplete | internal/canonicaljson/canonical.go:48-115 | every rendering of a well-formed value within limits is decoded to it |
| CanonicalJson.EncodeRenders | internal/canonicaljson/canonical.go:136-181 | the canonical text of a value is a text of it |
| CanonicalJson.RoundTrip | internal/canonicaljson/canonical.go:48-181 | decoding an encoded value returns it and what followed it |
| CanonicalJson.DecodesExactly | internal/canonicaljson/canonical.go:48-115 | the decoder accepts exactly the texts of well-formed values within limits |
| JsonModel.LimitsExactly | internal/canonicaljson/canonical.go:48-101 | within the limits means nested no deeper and no collection larger than they allow |
| CanonicalJson.AcceptedExactly | internal/canonicaljson/canonical.go:25-46 | a document is accepted exactly when neither empty nor too long and a text of a well-formed object within the limits; its form is that object's |
| CanonicalJson.BeforeExactly | internal/canonicaljson/canonical.go:136-181 | keys are ordered by the first differing character, prefixes first |
| CanonicalJson.LengthIsWritten | internal/canonicaljson/canonical.go:136-181 | the length of a form is that of its text |
| CanonicalJson.SameFormExactlyWhenSameValue | internal/canonicaljson/canonical.go:25-46 | two accepted documents have one canonical form if and only if they are texts of one value |
| CanonicalJson.CanonicalIsStableExactly | internal/canonicaljson/canonical.go:25-46 | canonicalisation is idempotent exactly when its output fits the byte limit |
| CanonicalJson.EscapingLengthens | internal/canonicaljson/canonical.go:25-46 | an accepted document whose canonical form exceeds the byte limit and is refused |
| JsonIntegers.ValidIntegersAreDecimals | internal/canonicaljson/canonical.go:117-134 | the accepted number texts are exactly the decimal texts of integers |
| JsonIntegers.DecimalIsInjective | internal/canonicaljson/canonical.go:117-134 | an integer has one accepted text and a text one integer |
| JsonReader.Reader.Value | internal/canonicaljson/canonical.go:48-115 | the stateful reader computes the decoding function and consumes exactly its tokens |
| JsonReader.Reader.ObjectMembers | internal/canonicaljson/canonical.go:59-85 | the member loop of an object does |
| JsonReader.Reader.ArrayElements | internal/canonicaljson/canonical.go:86-101 | the element loop of an array does |
| InstrumentMaster.New | internal/instrumentmaster/master.go:30-82 | accepts exactly masters with some distinct instruments, and mappings of listed instruments with no blank provider, token or symbol and a proper interval, without a clash; tells the two refusals apart |
| InstrumentMaster.TrimStrips | internal/instrumentmaster/master.go:107-108 | trimming cuts white space at both ends and nothing else; nothing is left exactly of a blank text |
| InstrumentMaster.ClashIsExactlyAmbiguity | internal/instrumentmaster/master.go:58-68 | mappings clash exactly when at some instant a token or an instrument would be ambiguous |
| InstrumentMaster.LinksAreOneToOne | internal/instrumentmaster/master.go:107-145 | at every instant a provider's tokens and instruments are related one to one |
| InstrumentMaster.Resolve | internal/instrumentmaster/master.go:107-122 | finds the linked instrument or none exists; never ambiguous |
| InstrumentMaster.ResolveInstrument | internal/instrumentmaster/master.go:126-141 | finds the linked mapping or none exists; never ambiguous |
| InstrumentMaster.RoundTripExactly | internal/instrumentmaster/master.go:107-141 | the lookups are inverse exactly for tokens stored without surrounding white space |
| InstrumentMaster.PaddedTokenIsLost | internal/instrumentmaster/master.go:107-122 | an accepted master whose padded token is found from the instrument and not from the token |
| Strikes.UniqueStrikes | internal/derivatives/selection.go:236-248 | the listed strikes, each once, increasing |
| Strikes.UniformInterval | internal/derivatives/selection.go:249-263 | finds the interval of an evenly spaced grid, or there is none |
| Strikes.RoundHalfUp | internal/derivatives/selection.go:264-270 | the nearest multiple, ties up |
| Strikes.RoundedIsNearest | internal/derivatives/selection.go:109-114 | on an even grid that holds it, the rounded reference is the nearest listed strike, ties up |
| Strikes.ResolveStrike | internal/derivatives/selection.go:97-114 | succeeds exactly on an even grid that lists the rounded reference, with the nearest strike; ambiguous exactly when several strikes are not even |
| Strikes.MappingStrike | internal/marketvalidation/derivatives_mapping.go:107-128 | the binary search and its correction choose the nearest listed strike, ties up, or fail for want of neighbours |
| Strikes.AlignedGridAgrees | internal/derivatives/selection.go:264-270 | on an even grid both rules choose the same inner strike if and only if the grid is aligned |

## Left out

- Contexts, deadlines, semaphores, goroutine shutdown and panics: they are arbitrary failures of a step, not real time.
- SHA-256, JSON byte layout, string escapes and time-zone formatting: identities are injective values, the byte length of an escaped string is a parameter.
- Order fields that are only validated or copied (reasons, prices of fills, schema versions): they decide nothing in the model.
- ExecutionLoop.Coordinator.Execute: shows the first `limit` passes of one call at a time, and a cancelled context or a full semaphore is an arbitrary interruption; interleavings of calls, and restarts in the middle of one, are in `ExecutionProtocol`, whose tasks may do whatever a holder of a reservation could do.
- ExecutionLoop.Coordinator.PublishBrokerEvent: looks for a known report in the whole log, where the source looks in the order's own reports and leaves the rest to the store.
- OrderPlan.FillsStayWithinApproval: speaks of one order; the total over an intent is in `IntentTotals`.
- ExecutionLoop.RecoveredOnceIsStuck: speaks of recoveries under a non-empty identity; a lookup that gives none can recover the order once more.
- ExecutionLoop.Coordinator.Restored: the restored reports are all of the old ones; the source also accepts fewer.
- OrderPlan.NewOrderPlan: does not re-sort the dependencies of a leg, which only affects the plan's digest.
- Replay order across positions: positions are ordered by their parts instead of by their hexadecimal digests; any fixed total order gives the theorems.
- Charges and fees in accounting, and portfolios in several currencies: a snapshot has one currency, and charges are not part of the fold.
- AccountingCalls.Coordinator.Apply: one call at a time and without ingestion metadata; concurrent calls are in `AccountingProtocol`.
- PositionStore.PublishOverCurrent: does not model the capacity limits of the memory store; a full store is a call that fails.
- AccountingProtocol.SoleCoordinatorNeverConflicts: the same.
- EvaluateEMA's crossover signal and `Restore` of candles and ledgers: short tables and field checks.
- CandleAggregation.CandleAggregator.Accept: as for Advance.
- CandleAggregation.Advance: counters and gaps are unbounded; the source's wrap at 64 bits and its clamped durations are not modelled.
- QualificationEngine.Engine.RecordSignal: checks on fields that the model does not carry are one flag, and the regime classification and review states are not modelled.
- Scorecards.Score: averages, median, profit factor, sessions and outcome rates are not modelled.
- Scorecards.DrawdownHoldsExactly: when a cumulative profit leaves 64 bits only the wrapped profit is stated and a wrong drawdown shown, not when the drawdown is right.
- Scorecards.Curve: the same.
- Strikes.ResolveStrike: ends with the chosen strike; the contract lookup and the surrounding universe are filters.
- The instrument master's version digest and its sorted listing.
- Command lines, HTTP, the operator console, configuration, files, logging, telemetry and notifications.
- Risk, portfolio, strategy, market-validation gates and session tables: if-chains settled by reading one branch.
