# Verified model of the Forecastology trading daemon

A Dafny model of the decision logic that stands between the exchange and the database, with proofs of what that logic
is for. Code that updates fields or works in loops is modelled as classes and methods with the same branches; each
method is proved equal to a step of a specification function. Of those functions two kinds of things are proved: what
one step means, in terms of the fields, the quotes, the observations or the requests (lemmas named `...Iff`, `...Is`,
`...Leaves`), and theorems about every run of the steps. `dafny verify dfyconfig.toml` checks the whole project.

| part | modules |
|---|---|
| Stop-loss exits: dispatch, panic flatten, idempotency record, ledger, latch | `Ownership`, `StopLoss`, `StopLossSafety`, `StopLossLedger`, `StopLossLog`, `StopLossLatch`, `StopLossBounds`, `StopLossEffects`, `StopLossListings`, `StopLossPieces`, `TemperatureStrategyModel` |
| Scheduled exits and the falling-knife guard | `IntradayExits`, `IntradayExact`, `IntradaySell`, `FallingKnife` |
| Day-latched gates | `SunriseGate`, `SunriseObservations`, `AmLowGate`, `BracketRanges` |
| Aggregate exposure under a loop of hedges | `EventExposure`, `Monitor` |
| Resting take-profit protocol | `ProfitTake` |
| Order book and log suppressor | `TickerCacheModel`, `LogDedupe` |
| Money ledgers | `PaperLedger`, `Reconciler`, `ReconcilerRows` |
| Stable sorting and sums over maps | `Common` |

How the stop-loss machine is modelled: bracket objects and exit tasks live in arenas and are named by index, because
the daemon keeps using a bracket, and an asyncio task, after its dictionaries have forgotten them. A step is one
uninterrupted stretch of work (a trigger, one iteration of the panic loop, a recovery, an entry, an adoption, a sync
with the exchange, a scheduled exit, a close-out, a task's cleanup); a run is any interleaving of steps with any
quotes, fills and failures. The log of the state records every quote an exit run reads and every sell handed out, and
the properties of whole runs are stated over it. What each of the pieces adds:

- `StopLossSafety` keeps the structural invariant (one unfinished run per market, attempts and counts in range).
- `StopLossLedger` relates the count of a (series, day) to the flags of the brackets, step by step and from trigger to
  end.
- `StopLossLog` says when a sell is allowed, at what price and for how much.
- `StopLossBounds` bounds every sell of every run by the position and the ownership known when it was handed out.
- `StopLossEffects` and `StopLossPieces` say what an execution and every other piece of a step does, field by field
  and without the functions that compute it.
- `StopLossListings` shows over runs that memory follows the exchange: no sell asks for more than was last listed.
- `StopLossLatch` says exactly when the unfillable latch is set and a run started, and what the latch and a SUCCEEDED
  record prevent.

## Where the code differs from what one would expect

Each point names the lemma with its exact condition, both ways, or where that is not the form of the point, the
theorem that bounds it and a concrete input.

- A log entry with a field named `count` overrides the count of its own `.repeated` line, so the log no longer reads
  back (`LogDedupe.SummaryReadsBack`, `StepFaithful`; input: `CountFieldMisreads`).
- A resting paper buy whose id (a millisecond clock and the ticker) is already in use overwrites the older order and
  its reservation (`PaperLedger.PlaceBuyConservesIff`).
- A snapshot entry of less than one contract leaves a level of quantity zero, and two entries of one price leave two
  levels (`TickerCacheModel.SnapshotWellFormedIff`; input: `FractionLeavesEmptyLevel`).
- The two readings that confirm a checkpoint exit lie on different days exactly when a clock was still pending at the
  first look of the day and no evaluation since failed to be low (`IntradayExits.ReadingsSpanDaysIff`; input:
  `ReadingsMaySpanDays`). Those of a high-water-mark exit never do when its exit price is under its arming price, and
  otherwise under the same kind of condition (`HwmExitSharesTheDate`, `HwmExitSpansDaysIff`; input:
  `HwmReadingsMaySpanDays`).
- When a position is entered again, or adopted, while an exit run of that market is unfinished, a market-gone outcome
  can decrement the ledger for a bracket that was never counted (input: `StopLossLedger.ReentryLosesACount`); an
  increment at the factor is lost. Nothing else unbalances the ledger (`StepBalance`).
- After such an entry the run can also go back to the bracket it started with, and ask for more contracts than the
  exchange last listed (input: `StopLossListings.ReentryOversells`). In every run without one no sell does
  (`SellsWithinListings`).
- Two station observations with one timestamp count in the order of the batch (`SunriseObservations.OrderIrrelevant`;
  input: `EqualTimesDepend`).
- A scheduled exit whose limit does not fill sells the same quantity again through the stop-loss path without looking
  at what the limit had filled (`IntradaySell.AsksTwiceIff`).
- The limit of a scheduled exit never reads the action record (`StopLossLatch.LimitIff`), and an adopted market keeps
  a SUCCEEDED record (input: `AdoptedMarketIsSoldAgain`): the record silences the stop-loss paths only
  (`SucceededStopsSells`). So does an entry whose commit fails: the position it leaves is not sold by any of them
  either.
- For the bottom bracket of an event the dip guard blocks every degree on which that bracket wins
  (`BracketRanges.OpenEndGates`), and with fewer than two known lines it is taken for a top bracket
  (`LoneLineMisreadsBottom`).
- An AM-low lock outlives a restart only if its row was written (`AmLowGate.FinalIff`; input: `UnwrittenLockIsLost`),
  and the scheduler's snapshot overwrites the row without looking (`AgreementKeptIff`). When several periods share the
  minimum, their order in the forecast can decide the day (`OrderIrrelevantIff`).
- A cancel of a take-profit order that answers true leaves no such sell resting exactly when the bulk cancel listed
  and confirmed every untracked one; its documentation promises it always (`ProfitTake.TrueCancelLeavesNoneIff`, and
  in terms of the replies `TruthfulCancelIff`; input: `LostPlacementSurvivesCancel`).
- A recovery entry sets a final outcome row back to OPEN and leaves the exit and the profit of the position before on
  it (`Reconciler.ReopenedIff`, `StaleProfitIff`; input: `RecoveryShowsOldLoss`). A later reconciliation keeps them as
  long as it reaches no verdict.
- When another writer finalises an outcome row between the reconciler's read and its upsert, a final decision replaces
  the recorded outcome and profit, and any decision replaces the entry average (`Reconciler.RaceKeepsVerdictIff`,
  `RaceKeepsAveragesIff`; input: `RaceOverwritesStopOut`). OPEN keeps outcome and profit (`FinalStaysFinal`).

## Model

| member | source | states |
|---|---|---|
| Ownership.AppOwnedQtyFromFills | core/state_machine.py:619-677 | the scan of a fill list gives the specified app-owned quantity, on every list, on a failed lookup and when no fill matches |
| Ownership.AppOwned | core/state_machine.py:619-677 | the app-owned quantity lies between 0 and the position; it is the whole position when external positions are managed, and the clamped fallback when nothing matched |
| Ownership.NetIsBoughtMinusSold | core/state_machine.py:639-663 | the running net of the scan is app buys minus app sells of the market |
| Ownership.AppOwnedIsClampedNet | core/state_machine.py:639-677 | matched fills alone decide: clamp(bought - sold, 0, total), whatever the fallback was |
| Ownership.AppOwnedIgnoresOrder | core/state_machine.py:619-677 | any permutation of the fill history gives the same answer |
| Ownership.AppOwnedIgnoresForeignFills | core/state_machine.py:639-663 | a fill without the app prefix, of another market or of no size changes nothing wherever it stands |
| Ownership.SignedIs | core/state_machine.py:639-663 | which fills count, and with which sign and size |
| Ownership.RoundIff | core/state_machine.py:664-677 | the net is rounded to the nearest contract, a tie to the even one |
| Ownership.ManagedExit | core/state_machine.py:734-743 | app plus external equals the position for any recorded value; with external management off an exit is never given more than the recorded app-owned quantity |
| IntradaySell.AsksWithinOwned | core/state_machine.py:6848-6974 | a scheduled exit adds at most two sells, of its own market only; none exceeds the position or, with external management off, the recorded app-owned quantity; the limit is never above the passed bid, the fallback never above the stop; stop-loss counts and flags are untouched |
| IntradaySell.AsksTwiceIff | core/state_machine.py:6917-6974 | the sells of one scheduled exit together exceed the managed quantity exactly when the limit was handed out, did not fill, and the action record lets the fallback through; then they ask for twice the quantity |
| StopLoss.ConfirmRemaining | core/state_machine.py:750-809 | what is left after a sell: managed and app-owned parts never exceed the total, and it counts as confirmed exactly when the exchange answered |
| StopLoss.SellPrice | core/state_machine.py:5845-5871 | no reactive sell is priced above the stop |
| StopLoss.PickCurrent | core/state_machine.py:1157-1182 | an iteration works on the active bracket or on the run's own, and picking it touches no count, flag, run or action record |
| StopLossSafety.StepKeepsInv | core/state_machine.py:871-1460 | one step of any kind keeps: no market has two unfinished exit runs, unfinished runs work on counted brackets, attempts stay within the retry limit, counts between 0 and the factor |
| StopLossSafety.RunKeepsInv | core/state_machine.py:871-1460 | the same in every state of every interleaving of triggers, recoveries, entries, adoptions, syncs, scheduled exits, closes, iterations and cleanups |
| StopLossSafety.FinishedFreesTicker | core/state_machine.py:919-926 | once a market's run has finished no other unfinished run works on any bracket of that market |
| StopLossLedger.StepBalance | core/state_machine.py:4904-4962 | from a balanced state, a step leaves count = number of flagged brackets if and only if it neither swallowed an increment at the factor nor decremented for a bracket that was never counted |
| StopLossLedger.StepKeepsPaired | core/state_machine.py:871-980 | as long as no new bracket becomes active under an unfinished exit run, by an entry or an adoption, each such run works on the bracket that is active for its market, if one is |
| StopLossLedger.PairedNeverUncounted | core/state_machine.py:1384-1397 | in such states no step decrements for a bracket that was never counted |
| StopLossLedger.LedgerBalance | core/state_machine.py:4904-4962 | in every run without a clamped increment or an entry under an unfinished exit, the count equals the number of flagged brackets and lies between 0 and the factor |
| StopLossLedger.ReentryLosesACount | core/state_machine.py:1384-1397 | a concrete run in which a position is re-entered under an unfinished exit ends with count 0 while a bracket is still flagged: the premise cannot be dropped |
| StopLossLedger.AttemptCount | core/state_machine.py:1278-1446 | one iteration takes one count back exactly when it ends by recovery, market gone or exhaustion, and none otherwise |
| StopLossLedger.AttemptAdvances | core/state_machine.py:1157-1411 | an iteration ends its run or moves it to the next attempt, so a run is finite |
| StopLossLedger.RunCount | core/state_machine.py:1157-1446 | over a whole exit run the count falls by one if the ask recovered, the market was gone or the attempts were exhausted, and is unchanged if the position was sold, missing or unsellable |
| StopLossLedger.TriggerToEnd | core/state_machine.py:6159-6234 | from trigger to end: the count is back where it was, or exactly one higher, according to how the run ended |
| StopLossLog.ExecuteLog | core/state_machine.py:5746-5956 | one execution hands out at most one sell; then the record allowed it, the price is at most the stop, and the quantity is within the position and the app-owned quantity |
| StopLossLog.AttemptKeepsLog | core/state_machine.py:1157-1411 | an iteration sells only right after reading a missing or stale quote or an ask at or below the stop, and with the abandon policy on the run's dead-book counter equals the number of dead books at the end of its trusted readings |
| StopLossLog.TrailingDeadIff | core/state_machine.py:1284-1336 | that number is at least n exactly when the last n trusted readings were all dead books |
| StopLossLog.EmptyStart | core/state_machine.py:871-1460 | with no position, record, count or run every invariant of the machine holds, whatever the configuration |
| StopLossLog.RunKeepsLog | core/state_machine.py:1100-1446 | in every interleaving each exit run hands out at most the retry limit of sells, each justified by the reading before it |
| StopLossLatch.LatchIff | core/state_machine.py:1284-1336 | of all steps, the one that latches a bracket unfillable is exactly the iteration of its own unfinished run that has a position to sell, reads a trusted ask at or below the stop, and thereby completes confirm-checks dead books in a row |
| StopLossLatch.OthersNeverLatch | core/state_machine.py:888-980 | no trigger, recovery, entry, adoption, sync, scheduled exit, flatten, close or cleanup sets a latch |
| StopLossLatch.StepStartsRunIff | core/state_machine.py:888-980 | a step starts an exit run, and then one, if and only if it is a trigger of an active market under the fast exit whose bracket is not latched shut and has no run in flight, and for the periodic trigger there is something to sell |
| StopLossLatch.LatchSilences | core/state_machine.py:904-926 | while latched, and with no bid above the no-bid limit shown, no step unlatches the bracket or starts a run for it, over any run |
| StopLossLatch.SucceededStopsSells | core/state_machine.py:5746-5837 | once the record says SUCCEEDED no path of stop-loss execution hands out another sell for the market until an entry is saved and deletes the record (3845-3862), an entry whose commit failed included; the limits of scheduled exits handed out in between are exactly the steps that meet the condition of LimitIff |
| StopLossLatch.LimitIff | core/state_machine.py:6917-6950 | a step hands out a limit sell for a market if and only if it is a scheduled exit of that active market with a quantity to sell, a positive bid and an executor that has limit sells; the action record plays no part |
| StopLossLatch.InactiveSellsNothing | core/state_machine.py:6848-6974 | while a market is not active and is neither entered nor adopted, no run of steps hands out a limit sell for it |
| StopLossLatch.AdoptedMarketIsSoldAgain | core/state_machine.py:5590-5640 | a concrete run in which a market sold by a stop-loss is adopted again: the record still says SUCCEEDED, and a scheduled exit hands out a limit all the same |
| StopLossBounds.StepSellsWithin | core/state_machine.py:5839-5871 | every sell a step of any kind hands out, limits included, is of the bracket that step sells, within the position known at that moment and, with external management off, the ownership then recorded; a stop-loss sell is not priced above the stop |
| StopLossBounds.RunSellsWithin | core/state_machine.py:5839-5871 | the same for every sell in the log of every run, each traced to the step that handed it out |
| StopLossEffects.RefusedExecution | core/state_machine.py:5746-5925 | an execution that hands out no sell: nothing changes during the cooldown or while a sell is in flight, a SUCCEEDED record takes the position out of memory, and with nothing to sell the record becomes PENDING |
| StopLossEffects.HandedOutExecution | core/state_machine.py:5746-6125 | an execution that hands out a sell, for every reply: the line it logs, and when the sell was answered and the exchange lists what is left, the quantity becomes the listed count and the ownership the clamped bought-minus-sold of the listed fills, or the clamped prior-minus-filled when none match, unless nothing is left, which removes the position; when the exchange does not answer, memory keeps its figures |
| StopLossListings.StepKeepsNotices | core/state_machine.py:750-1446 | every step that does not re-enter a market under its exit keeps memory no larger than what the exchange last listed |
| StopLossListings.SellsWithinListings | core/state_machine.py:750-1446 | over every run: with no entry, sync, adoption or trigger that resized the market in between, no sell of it asks for more than the count last listed for it |
| StopLossListings.ReentryOversells | core/state_machine.py:1157-1182 | concrete run: a market entered again under its unfinished exit; the run goes back to its first bracket and asks for ten contracts although three were last listed |
| StopLossPieces.CountIs | core/state_machine.py:4904-4943 | a bracket raises its market's count the first time it is counted only, by one and up to the factor |
| StopLossPieces.UncountIs | core/state_machine.py:745-748 | taking the count back clears the flag and lowers the count by one unless it is zero |
| StopLossPieces.JoinIs | core/state_machine.py:3845-3862 | contracts join the active bracket or open a fresh uncounted one, and the recorded ownership is the given figure within the new size |
| StopLossPieces.AdoptIs | core/state_machine.py:5590-5636 | a listed position memory does not hold is taken over for what the fills say is the application's, or whole when external contracts are managed |
| StopLossPieces.SyncIs | core/state_machine.py:5033-5060 | a position listed as zero leaves memory; otherwise the listed count is the size and the fills decide the recorded ownership |
| StopLossPieces.DispatchIs | core/state_machine.py:888-980 | a latched bracket without a new bid is left alone; any other is unlatched and gets a run at its first attempt unless its market is exiting |
| StopLossPieces.PhaseCIs | core/state_machine.py:5486-5549 | the polled trigger drops an empty bracket, leaves one with nothing to sell and counts and exits any other |
| StopLossPieces.RecoveryIs | core/state_machine.py:5550-5588 | a recovered price takes the count back exactly when no exit is unfinished or has succeeded |
| StopLossPieces.ScheduledIs | core/state_machine.py:6848-6974 | which sells a scheduled exit hands out, at which price and for how much, and when it takes the position out of memory |
| StopLossPieces.FlattenIs | core/state_machine.py:5409-5433 | the blind flatten sells exactly when something of the bracket is recorded as the application's |
| StopLossPieces.PickIs | core/state_machine.py:1157-1182 | when an attempt works on the active bracket, on the run's own as the exchange lists it, or finds the position gone |
| StopLossPieces.VerdictIs | core/state_machine.py:1196-1336 | in terms of the quote's age, ask and bid: when an attempt sells, when the run ends as recovered and when as unfillable |
| StopLossPieces.AttemptIs | core/state_machine.py:1157-1382 | what each verdict leaves: the run ended and the count taken back, the bracket latched, or a sell at the panic price |
| StopLossPieces.OutcomeIs | core/state_machine.py:1384-1411 | which outcome of a sell ends the run, which uncounts its bracket and which leads to the next attempt |
| StopLossPieces.ExhaustionIs | core/state_machine.py:811-853 | after the last attempt memory takes over what the exchange lists and the count is taken back; without looking at the flag when nothing is left to manage |
| TemperatureStrategyModel.TemperatureStrategy.IncrementStopLossCount | core/state_machine.py:4904-4943 | raises the series-day count by one up to the factor |
| TemperatureStrategyModel.TemperatureStrategy.DecrementStopLossCount | core/state_machine.py:4945-4962 | lowers it by one down to zero |
| TemperatureStrategyModel.TemperatureStrategy.RollbackIfCounted | core/state_machine.py:745-748 | takes the count of a flagged bracket back and clears the flag |
| TemperatureStrategyModel.TemperatureStrategy.CountOnce | core/state_machine.py:6219-6221 | counts a bracket once however often it triggers |
| TemperatureStrategyModel.TemperatureStrategy.SetOwnershipOf | core/state_machine.py:700-732 | records the clamped app-owned quantity; app plus external is the position |
| TemperatureStrategyModel.TemperatureStrategy.ConfirmedRemaining | core/state_machine.py:750-809 | works out what is left from the exchange, or from memory when it does not answer |
| TemperatureStrategyModel.TemperatureStrategy.ReconcilePosition | core/state_machine.py:1174-1182 | overwrites quantity and ownership together |
| TemperatureStrategyModel.TemperatureStrategy.Forget | core/state_machine.py:1448-1460 | drops the position from memory and keeps the action record |
| TemperatureStrategyModel.TemperatureStrategy.Execute | core/state_machine.py:5721-5837 | the idempotency record admits or refuses the sell |
| TemperatureStrategyModel.TemperatureStrategy.Submit | core/state_machine.py:5845-5925 | price ceiling, managed quantity, one sell |
| TemperatureStrategyModel.TemperatureStrategy.SettleSell | core/state_machine.py:5925-6125 | what each outcome of the sell does to record, position and ownership; `StopLossEffects.HandedOutExecution` says it field by field |
| TemperatureStrategyModel.TemperatureStrategy.IntradayExecuteExit | core/state_machine.py:6848-6974 | limit at the corroborated bid, then the stop-loss fallback |
| TemperatureStrategyModel.TemperatureStrategy.DispatchStopLossExit | core/state_machine.py:888-980 | latch check, in-flight check, new run |
| TemperatureStrategyModel.TemperatureStrategy.Exit | core/state_machine.py:6223-6233 | a task when the fast exit is on, a direct sell otherwise |
| TemperatureStrategyModel.TemperatureStrategy.ExecuteStopLossFromWatcher | core/state_machine.py:6128-6240 | a websocket trigger takes exactly the watcher step of the transition system |
| TemperatureStrategyModel.TemperatureStrategy.EvaluateTriggered | core/state_machine.py:5486-5549 | the periodic evaluation at or below the stop takes exactly its step |
| TemperatureStrategyModel.TemperatureStrategy.EvaluateRecovered | core/state_machine.py:5550-5588 | the periodic evaluation above the stop takes exactly its step |
| TemperatureStrategyModel.TemperatureStrategy.HandleExhaustion | core/state_machine.py:1413-1446 | what the run does when its attempts are used up |
| TemperatureStrategyModel.TemperatureStrategy.PickBracket | core/state_machine.py:1157-1182 | which bracket an iteration works on |
| TemperatureStrategyModel.TemperatureStrategy.RevalidateQuote | core/state_machine.py:1196-1336 | the verdict on the quote and the dead-book counter |
| TemperatureStrategyModel.TemperatureStrategy.PanicIteration | core/state_machine.py:1157-1411 | one pass through the loop body takes exactly the iteration step |
| TemperatureStrategyModel.TemperatureStrategy.Conclude | core/state_machine.py:1384-1411 | what an iteration does with the outcome of its sell |
| TemperatureStrategyModel.TemperatureStrategy.RunPanicFlattenExit | core/state_machine.py:1100-1446 | the whole loop ends within the retry limit of iterations, hands out at most that many sells, and keeps every invariant |
| TemperatureStrategyModel.TemperatureStrategy.RecordEntry | core/state_machine.py:3845-3862 | a filled entry joins or creates the bracket, and deletes the action record if its transaction commits |
| TemperatureStrategyModel.TemperatureStrategy.CleanupTask | core/state_machine.py:974-980 | the done callback removes the dictionary entry only when it still is this task |
| TemperatureStrategyModel.TemperatureStrategy.RunScheduledExit | core/state_machine.py:6848-6974 | a scheduled exit of an active market takes exactly its step |
| TemperatureStrategyModel.TemperatureStrategy.CloseOutTicker | core/state_machine.py:6458-6470 | the close-out sells through the record like a stop-loss, without its cooldown |
| TemperatureStrategyModel.TemperatureStrategy.SyncListedPosition | core/state_machine.py:5033-5060 | the periodic sync overwrites quantity and ownership with what the exchange lists |
| TemperatureStrategyModel.TemperatureStrategy.AdoptUntracked | core/state_machine.py:5590-5636 | contracts the exchange lists and memory does not know become a position, and the action record stays |
| TemperatureStrategyModel.TemperatureStrategy.FlattenBlind | core/state_machine.py:5409-5433 | the flatten without a quote sells only what is recorded as app-owned |
| FallingKnife.GuardIsTraceSpec | core/state_machine.py:548-591 | after any tick history the guard is set if and only if two consecutive ticks were above the ceiling with no later clearing tick and no window reset since |
| FallingKnife.GuardIff | core/state_machine.py:548-591 | in prices, triggers and times alone: the guard is set exactly when two ticks in a row went over the ceiling and no reset, tick under the trigger or decayed tick followed |
| FallingKnife.GuardRemembersLastAbove | core/state_machine.py:554-591 | a tripped or pending guard remembers exactly the last tick above the ceiling, and pending means the newest event was one |
| FallingKnife.MarketBracket.UpdateFallingKnifeGuard | core/state_machine.py:554-591 | the field update equals the trace specification on the extended history |
| FallingKnife.MarketBracket.ResetForWindow | core/state_machine.py:2713-2724 | re-opening the entry window clears the guard |
| IntradayExits.CheckpointNeedsTwoReadings | core/state_machine.py:6662-6774 | over the looks taken at one checkpoint, a firing needs a low evaluation at least 60 s earlier with no evaluation between that was at or above the threshold, without an ask or too wide |
| IntradayExits.CheckpointFiresOncePerDate | core/state_machine.py:6668-6697 | over the looks taken at one checkpoint, at most one firing per local date |
| IntradayExits.ReadingsSpanDaysIff | core/state_machine.py:6738-6767 | the first reading behind an exit is of an earlier date if and only if a clock was still pending when the first look of the date came and every evaluation of the date before the exit was low: only an evaluation clears the clock |
| IntradayExits.ReadingsMaySpanDays | core/state_machine.py:6738-6767 | concrete looks, the first in the minute before midnight, whose two readings are on different days |
| IntradayExits.HwmNeedsArmingAndTwoReadings | core/state_machine.py:6790-6846 | a high-water-mark exit needs an arming view of that local date at or after noon and a low reading at least 60 s old with no recovery since |
| IntradayExits.HwmReadingsShareTheDate | core/state_machine.py:6790-6846 | with the exit price under the arming price both readings are of the same date |
| IntradayExits.HwmReadingsSpanDaysIff | core/state_machine.py:6790-6846 | for any two prices the first reading is of an earlier date if and only if a clock was pending when the first view of the date came and every judged view of the date before the exit was low and did not exit |
| IntradayExits.HwmReadingsMaySpanDays | core/state_machine.py:6790-6846 | concrete views, with the exit price above the arming price, that fire across the change of date |
| IntradayExits.EntryIsItsTrail | core/state_machine.py:6603-6774 | over any run of passes, cut short by firings or not, the entry of a checkpoint is its automaton run on exactly the looks the passes took at it |
| IntradayExits.CheckpointExitIff | core/state_machine.py:6603-6774 | a pass exits for a checkpoint if and only if it came to it and its last look fired |
| IntradayExits.CheckpointExitsOncePerDate | core/state_machine.py:6603-6774 | over any run of passes a ticker exits at most once per checkpoint and local date |
| IntradayExits.CheckpointExitIsConfirmed | core/state_machine.py:6603-6774 | every exit a pass makes for a checkpoint is the second of two low readings of it at least 60 s apart, with no evaluation between that was not low |
| IntradayExits.HwmIsItsTrail | core/state_machine.py:6603-6846 | over any run of passes the high-water-mark entry is its automaton run on the views of the passes that came to its block |
| IntradayExits.HwmExitIff | core/state_machine.py:6603-6846 | a pass makes a high-water-mark exit if and only if it comes to the block and its automaton fires there |
| IntradayExits.HwmExitIsArmedAndConfirmed | core/state_machine.py:6603-6846 | every high-water-mark exit a pass makes has an arming view of its date and a confirmed low reading among those views |
| IntradayExits.HwmExitSpansDaysIff | core/state_machine.py:6603-6846 | over any run of passes, exactly when the first reading behind a high-water-mark exit is of an earlier date |
| IntradayExits.HwmExitSharesTheDate | core/state_machine.py:6603-6846 | over any run of passes, never with the exit price under the arming price |
| IntradayExits.CheckpointsPointwise | core/state_machine.py:6662-6774 | in one pass each reached checkpoint takes exactly its own step and no other's; the exit is that of the first that fires |
| IntradayExits.OneExitPerPass | core/state_machine.py:6603-6846 | at most one exit per ticker and pass, the high-water-mark one only when no checkpoint exited |
| IntradayExact.ExitsIff | core/state_machine.py:6662-6774 | without the automaton: a look makes the checkpoint exit if and only if its minute has come, no earlier look of the date settled it, the ask is low, not too wide and out of grace, and the reading whose clock runs is at least a minute old |
| IntradayExact.PassExitsIff | core/state_machine.py:6603-6774 | over runs of passes: a pass exits for a checkpoint if and only if its last look at it is such a look among all looks ever taken at it |
| IntradayExact.SettledForTheDate | core/state_machine.py:6693-6736 | once a pass came to a checkpoint past its minute and found no ask, one at the threshold or above, or a low one that is not too wide in the grace period, no later pass of that date exits for it |
| IntradayExact.NoExit | core/state_machine.py:6603-6640 | an excluded position, one with both exits off and one in its grace period is never exited |
| IntradayExact.HwmExitsIff | core/state_machine.py:6790-6846 | without the automaton: a view exits at the high-water mark if and only if its date is armed by a view at or after noon and no exit since, the ask is at the exit price or under out of grace, and the running clock is at least a minute old |
| IntradayExact.PassHwmExitsIff | core/state_machine.py:6603-6846 | over runs of passes, and which passes come to that block at all |
| IntradayExits.ExitMonitor.EvaluateCheckpoint | core/state_machine.py:6662-6774 | updates one (ticker, checkpoint) entry by its automaton and leaves every other entry alone |
| IntradayExits.ExitMonitor.EvaluateHwm | core/state_machine.py:6790-6846 | the same for the high-water-mark entries of one ticker |
| IntradayExits.ExitMonitor.EvaluatePosition | core/state_machine.py:6603-6846 | one position in one pass over both blocks, other tickers untouched |
| IntradayExits.ExitMonitor.WatchPosition | core/state_machine.py:6562-6846 | a position watched over any number of passes exits exactly as those runs say |
| SunriseGate.LatchesAgree | core/sunrise_gate.py:1122-1337 | latched equals latched_for_day in every reachable state, so the branch that unlatches within a day never runs |
| SunriseGate.YesStaysYes | core/sunrise_gate.py:1122-1145 | after a yes every later check of that date answers yes, whatever is observed and however the day-minimum tracker touches the shared state |
| SunriseObservations.WholeFIff | core/sunrise_gate.py:40-53 | the whole degree nearest to the Celsius reading, the upper one on a tie |
| SunriseObservations.ParsedListsWindow | core/sunrise_gate.py:1192-1199 | the readings of a check are those of its window, each observation once, in whole degrees, ascending in time and at equal times in batch order |
| SunriseObservations.LatchesIff | core/sunrise_gate.py:1192-1337 | a check of a date not latched answers yes if and only if the two newest observations of its window are warmer than some observation of it, or than the day's minimum, by the requirement, and the newest is fresh |
| SunriseObservations.CheckLeaves | core/sunrise_gate.py:1122-1337 | the whole state a check leaves, said of the observations: minimum, baseline, latch, and what a batch without a fresh observation leaves alone |
| SunriseObservations.OrderIrrelevant | core/sunrise_gate.py:1192-1199 | when the times of the window differ, neither state nor answer depends on the order of the batch |
| SunriseObservations.EqualTimesDepend | core/sunrise_gate.py:1192-1199 | two observations of one time in the other order turn the answer around |
| SunriseObservations.TrackerLeaves | core/sunrise_gate.py:668-737 | when the day-minimum tracker asks for a batch, and the minimum it leaves |
| SunriseGate.RunningMinIsMinimum | core/sunrise_gate.py:1276-1298 | the running minimum is the minimum over all readings of the non-stale batches judged on the date |
| SunriseGate.MinOfIsMinimum | core/sunrise_gate.py:1276-1298 | that minimum is a member of the readings and below all of them |
| SunriseGate.SubDegreeRequirementsAgree | core/sunrise_gate.py:1300-1317 | every requirement in (0,1] gives the states and answers of requirement 1 on every history |
| SunriseGate.FlatNeverLatches | core/sunrise_gate.py:44-53 | a series whose readings all round half-up to one whole degree never latches, for any positive requirement |
| SunriseGate.WindowVerdictMovesForward | core/sunrise_gate.py:846-904 | within a local day, once observed, a window's verdict only moves never reached, allowed, below range |
| SunriseGate.DayMinFalls | core/sunrise_gate.py:727-737 | the tracked minimum of a date never rises, through latch checks and refreshes in any order |
| SunriseGate.SunriseEntryGate.CheckTempRiseLatch | core/sunrise_gate.py:1111-1337 | the method takes exactly the latch step on its series and leaves the others alone |
| SunriseGate.SunriseEntryGate.ParseObservations | core/sunrise_gate.py:1170-1199 | the loop keeps the readings of the baseline window and sorts them; `SunriseObservations.ParsedListsWindow` says of the observations what that list is |
| SunriseGate.SunriseEntryGate.UpdateRunningMin | core/sunrise_gate.py:1276-1298 | the loop over readings lowers the minimum, unlatching only a provisional latch |
| SunriseGate.SunriseEntryGate.CountSustained | core/sunrise_gate.py:1302-1312 | counts the newest readings in a row that have risen by the requirement |
| SunriseGate.SunriseEntryGate.DayHasDippedBelow | core/sunrise_gate.py:623-797 | refreshes the day minimum at most once a minute and blocks exactly when it is known and under the bracket |
| SunriseGate.SunriseEntryGate.DayReachedBracket | core/sunrise_gate.py:803-904 | blocks exactly when something was observed and the verdict is not allowed |
| AmLowGate.ScanDayMin | core/sunrise_gate.py:66-113 | the loop over periods computes the specified scan, skipping unreadable periods and other dates |
| AmLowGate.ScanFindsFirstColdest | core/sunrise_gate.py:105-111 | the reported minimum and its time belong to the first of the coldest usable periods in list order |
| AmLowGate.ScanFindsEarliest | core/sunrise_gate.py:107-108 | the reported first hour is that of the earliest usable period |
| AmLowGate.DecidesIff | core/sunrise_gate.py:1010-1064 | a forecast says nothing exactly when no period is of the date; otherwise its first lowest period of the date gives minimum, time and verdict, and it decides exactly when a period of the date is in the snapshot hour or earlier |
| AmLowGate.CheckLeaves | core/sunrise_gate.py:925-1096 | what a check reads and leaves: entry, row or forecast, and when it locks and stores |
| AmLowGate.SnapshotLeaves | core/sunrise_gate.py:1831-1913 | the scheduler stores what a forecast decides, at any hour and over any row |
| AmLowGate.BlocksIff | core/sunrise_gate.py:1022-1032 | a forecast decides against the day if and only if it has a period no later than the snapshot hour and its first coldest period is at the deadline hour or later |
| AmLowGate.OrderIrrelevantIff | core/sunrise_gate.py:109-111 | the verdict is independent of the order of the periods if and only if all coldest periods lie on one side of the deadline |
| AmLowGate.PartialNeverDecides | core/sunrise_gate.py:1046-1064 | a partial-morning forecast writes no row, locks nothing by itself and never blocks by itself |
| AmLowGate.AgreementKeptIff | core/sunrise_gate.py:925-1096 | a step keeps every locked cache entry in agreement with a stored row if and only if it is orderly: a fresh lock gets written or is already there, and the scheduler puts no different row under a locked entry |
| AmLowGate.LockedEntriesAgree | core/sunrise_gate.py:925-1096 | in every orderly run with any number of restarts every locked entry agrees with a stored row |
| AmLowGate.FinalIff | core/sunrise_gate.py:925-975 | every future check of the key answers v, through any forecasts, failed writes and restarts, if and only if v is stored and no cached entry says otherwise (with one configuration in which no forecast can pass at all) |
| AmLowGate.LockedIsFinal | core/sunrise_gate.py:1072-1096 | a verdict locked in an orderly run is the answer of every later check of that series and date |
| AmLowGate.LockHoldsWithinProcess | core/sunrise_gate.py:928-942 | without a restart a locked entry and its answers never change, whatever the table, the scheduler and the forecasts do |
| AmLowGate.UnwrittenLockIsLost | core/sunrise_gate.py:161-202 | a lock whose write failed is turned around by a restart and a lost forecast service: the write premise cannot be dropped |
| AmLowGate.SunriseEntryGate.CheckAmLowForecast | core/sunrise_gate.py:910-1096 | the method takes exactly the check step on cache and table, with every early return |
| AmLowGate.SnapshotAmLowForecast | core/sunrise_gate.py:1831-1913 | the scheduler's evaluation writes the row unconditionally, only for a forecast that covered the morning |
| BracketRanges.LadderPartitions | core/trade_outcome_utils.py:127-188 | for every well-formed event ladder each whole degree is covered by exactly one bracket, the one that wins on it |
| BracketRanges.LoneLineMisreadsBottom | core/trade_outcome_utils.py:164-188 | with fewer than two known lines the bottom bracket is read as a top one and covers none of its own degrees |
| BracketRanges.WindowGates | core/sunrise_gate.py:846-904 | for a window, the dip guard fires exactly when the verdict is below range, and the two gates together pass exactly its own degrees |
| BracketRanges.OpenEndGates | core/sunrise_gate.py:744-771 | for the top bracket the dip guard blocks exactly the losing degrees; for the bottom bracket it blocks every winning one |
| BracketRanges.VerdictIff | core/sunrise_gate.py:846-904 | which minima a verdict refuses, and as which |
| BracketRanges.VerdictOnlyMovesForward | core/sunrise_gate.py:846-904 | a falling minimum only moves a window's verdict forward |
| EventExposure.LoadEventHoldings | core/event_exposure.py:63-88 | collects the open rows of one event, none when it has expired, with the ceiling standing in for a missing price |
| EventExposure.Merged | core/event_exposure.py:91-100 | the larger quantity wins per ticker and nothing else appears |
| EventExposure.Merge | core/event_exposure.py:91-100 | the loop over the extra holdings computes that merge |
| EventExposure.Totals | core/event_exposure.py:150-170 | the running totals are the sums over the merged holdings |
| EventExposure.EventExposureAllowsBuy | core/event_exposure.py:103-201 | allows exactly the buys the specification allows, on lookup failure and disabled caps too |
| EventExposure.AllowsIff | core/event_exposure.py:103-201 | in terms of what each ticker holds: a buy passes if and only if no cap is set, its ticker has no event, the lookup failed and the policy is open, or held plus working plus this buy is within each cap set |
| EventExposure.EventKeyIff | core/event_exposure.py:28-34 | a ticker belongs to an event exactly when it begins, in any case, with its series, a dash and its date |
| EventExposure.AsHoldingsIs | monitor.py:383-388 | each ledger entry becomes a holding at the lowest whole price that covers its cost |
| EventExposure.CeilCovers | monitor.py:383-388 | qty * ceil(cost / qty) is never less than cost |
| EventExposure.HeldCoversLedger | core/event_exposure.py:128-170 | what the check adds up for an event is never less than the contracts and the cost the ledgers track for it |
| EventExposure.AllowedBuyStaysWithinCaps | core/event_exposure.py:103-201 | an allowed buy, filled in any part at no more than the submitted limit, leaves the event within every enabled cap |
| Monitor.Executor.BuyYes | monitor.py:200-238 | the exchange may reject, or fill any part at any price within the limit |
| Monitor.BuyHedge | monitor.py:134-238 | an order is submitted if and only if it passes the per-target cap, the price ceiling and the event check |
| Monitor.ScanPositions | monitor.py:273-291 | the three dictionaries of the first loop hold standalone quantity, its price, and the parents' hedges per target |
| Monitor.InitialLedgers | monitor.py:273-301 | known quantity is the larger of the two figures and known cost its quantity at the matching price |
| Monitor.StartsFrom | monitor.py:273-301 | row by row: a target starts with the larger of its own row and of the parents' hedges, at its entry price or at the ceiling |
| Monitor.StartCovers | monitor.py:287-301 | the starting ledgers cover everything the position rows say |
| Monitor.TradeIsGood | monitor.py:373-436 | every recorded hedge is within the quantity its position lacks, the target cap and the event caps |
| Monitor.RecordKeepsCaps | monitor.py:431-434 | recording it keeps every event within the larger of its start and the enabled cap |
| Monitor.OrderIff | monitor.py:302-436 | a turn submits an order if and only if the row is not settled, the price is positive and at the trigger or under, contracts are missing, a target and a positive target price exist and the caps pass; the order is for that target, that price and the missing quantity |
| Monitor.CycleOrdersIff | monitor.py:302-445 | the same of every turn of a cycle, against the ledgers as the turns before left them |
| Monitor.HedgePosition | monitor.py:302-445 | one position submits exactly the order its turn calls for and yields at most one good trade |
| Monitor.TakeTurn | monitor.py:302-445 | one turn of the loop: the order, the trade row its reply leads to, and in fields what it leaves of the position and of the ledgers |
| Monitor.RunMonitorCycle | monitor.py:241-447 | over a whole cycle, parents sharing targets and partial fills included: event contracts and cost within max(start, cap), targets within max(start, initial * 2^(factor-1)), no parent over-hedged, and the hedge increases equal the HEDGE trade rows; it also returns the turns it took, for which `CycleOrdersIff` says which orders went out |
| ProfitTake.PlacementSingle | execution/profit_take_sell.py:196-271 | one accepted order on a book clean for its market leaves at most one take-profit sell per market |
| ProfitTake.Exchange.ListOpenSellOrders | execution/profit_take_sell.py:178-222 | the assumption on the exchange: a listing is truthful when taken, or the call raises |
| ProfitTake.Exchange.PlaceLimitSell | execution/profit_take_sell.py:240-271 | an order may be rejected, accepted with a lost reply, or filled before the reply |
| ProfitTake.ProfitTakeSellManager.constructor | execution/profit_take_sell.py:71-94 | the price is at least 2 cents and 99 when unset |
| ProfitTake.ProfitTakeSellManager.CancelOne | execution/profit_take_sell.py:378-404 | a cancel counts only when confirmed |
| ProfitTake.ProfitTakeSellManager.CancelListed | execution/profit_take_sell.py:178-187 | exactly one cancel per listed take-profit sell, in list order |
| ProfitTake.ProfitTakeSellManager.ConfirmClean | execution/profit_take_sell.py:196-222 | clean means a truthful listing without a take-profit sell of the market |
| ProfitTake.ProfitTakeSellManager.ClearBook | execution/profit_take_sell.py:168-222 | cancels what is listed and lists again before it calls the book clean |
| ProfitTake.ProfitTakeSellManager.ClearAndPlace | execution/profit_take_sell.py:168-271 | places exactly when the book was listed clean after the cancels |
| ProfitTake.ProfitTakeSellManager.Submit | execution/profit_take_sell.py:224-271 | a usable reply is recorded, any other is not, no second sell ever rests, and the one order sent carries the prefix, the manager's price and the quantity |
| ProfitTake.ProfitTakeSellManager.Place | execution/profit_take_sell.py:120-271 | at every moment at most one take-profit sell of a market rests; after a successful place only the new one; every order it sends is of the market, with the prefix, at the manager's price and for the quantity; the first request is the cancel of the given id or else of the tracked one, the ids tracked afterwards are stated, and the requests follow cancel, list, cancel all, list, place |
| ProfitTake.PlacementClears | execution/profit_take_sell.py:168-271 | whatever take-profit sell of the market a placement's listings show is sent a cancel, or the placement sends no order; the order it sends is its last request |
| ProfitTake.PlacesIff | execution/profit_take_sell.py:120-271 | what one placement asks in which order: nothing after an unconfirmed cancel of the known order, a listing, a cancel for each take-profit sell it showed and no other, a second listing, and the order exactly when that succeeded and showed none; and which reply counts as success |
| ProfitTake.EarlierOrderIsCleared | execution/profit_take_sell.py:120-271 | in a session an order of an earlier successful placement that still rests when a later placement of its market lists the book is sent a cancel by it, or it sends none, also after a restart |
| ProfitTake.ProfitTakeSellManager.Cancel | execution/profit_take_sell.py:277-317 | the tracked order alone decides the answer and the record; then the bulk cancel runs; on a prompt exchange the book loses exactly the orders that left by themselves and those whose cancel was confirmed, and a true answer leaves no take-profit sell of the market if and only if the listing succeeded and each one it shows has left or was confirmed, or it failed and nothing untracked was resting |
| ProfitTake.CancelsIff | execution/profit_take_sell.py:277-317 | what one cancel asks: the tracked order, whose reply alone decides the answer, and then in any case a listing and a cancel for each take-profit sell it shows, up to one that raises |
| ProfitTake.TruthfulCancelIff | execution/profit_take_sell.py:277-317 | that condition, which the replies show whenever the listing succeeded, is exact for every book, truthful listing and replies |
| ProfitTake.TrueCancelLeavesNoneIff | execution/profit_take_sell.py:277-317 | after a true answer no take-profit sell of the market rests if and only if each one that rested before, other than the tracked order and those that left by themselves, was listed by the bulk cancel and had its cancel confirmed |
| ProfitTake.LostPlacementSurvivesCancel | execution/profit_take_sell.py:277-317 | concrete calls: the sell of a lost placement reply still rests after a cancel that answered true, because the listing failed |
| ProfitTake.Exchange.CancelOpenSellOrders | execution/live.py:852-877 | lists the market and cancels what the listing shows under the prefix, one after the other; a failed listing looks empty |
| ProfitTake.Exchange.CancelRows | execution/live.py:865-877 | one cancel per listed take-profit sell in list order, up to the first that raises |
| ProfitTake.ProfitTakeSellManager.CancelOrphan | execution/profit_take_sell.py:319-327 | forgets the market's record and never adds an order |
| ProfitTake.ProfitTakeSellManager.CheckFill | execution/profit_take_sell.py:333-372 | true exactly when the exchange reports the tracked order filled; the record is dropped when it is filled or gone |
| ProfitTake.Session | execution/profit_take_sell.py:120-372 | any sequence of calls and restarts from a book with at most one such sell per market: at every moment of the session at most one rests; the calls are cut into those of the commands, and each command sends only what it may |
| TickerCacheModel.DeltaRefines | data/ticker_cache.py:75-112 | a delta keeps the list strictly descending, unique and positive and sets the price to max(0, old + delta) |
| TickerCacheModel.BookRefinesMap | data/ticker_cache.py:44-112 | after any messages, snapshots and deltas in any order, whose snapshots have distinct prices and whole contracts, both sides are the well-formed lists of the price-quantity maps the messages describe, and no other well-formed list is |
| TickerCacheModel.StepTracks | data/ticker_cache.py:44-112 | one message moves list and map together, a delta before a snapshot or with a missing field moving neither |
| TickerCacheModel.SnapshotRepresents | data/ticker_cache.py:44-73 | a snapshot with distinct prices gives exactly the list of the map it describes |
| TickerCacheModel.RepresentationUnique | data/ticker_cache.py:44-112 | one price-quantity map has exactly one well-formed list |
| TickerCacheModel.SnapshotWellFormedIff | data/ticker_cache.py:44-73 | a snapshot gives a well-formed side if and only if its kept entries have distinct prices and at least one whole contract each |
| TickerCacheModel.FractionLeavesEmptyLevel | data/ticker_cache.py:50-66 | half a contract in a snapshot leaves a level of quantity zero |
| TickerCacheModel.BestPrices | core/types.py:41-67 | the best bid is the largest YES price and the derived ask is 100 minus the largest NO price |
| TickerCacheModel.MessageMoves | data/ticker_cache.py:44-112 | price by price: a delta changes the one price of the one side it names by its whole contracts, down to nothing, and anything incomplete or before a snapshot changes nothing |
| TickerCacheModel.SnapshotIs | data/ticker_cache.py:44-73 | a snapshot holds a price exactly when one of its entries is for more than nothing, and the last such entry gives the quantity |
| TickerCacheModel.TruncateIff | data/ticker_cache.py:50-100 | quantities and deltas are cut toward zero, whatever the sign |
| TickerCacheModel.BooksDescend | data/ticker_cache.py:44-112 | both sides of every book descend in price, whole or not, and no YES asks are kept |
| TickerCacheModel.ConfirmedAskIff | data/ticker_cache.py:117-169 | of levels in any state: the confirmed ask comes from the highest live NO price, from the next one when the gap is too wide, and from none without a second price while the guard is on |
| TickerCacheModel.ConfirmedBidIff | data/ticker_cache.py:171-209 | the confirmed bid likewise, but a lone price is believed |
| TickerCacheModel.GetConfirmedAsk | data/ticker_cache.py:117-169 | the loop over the NO bids returns the specified confirmed ask |
| TickerCacheModel.GetConfirmedBid | data/ticker_cache.py:171-209 | the same for the YES bids |
| TickerCacheModel.AskSpoofBound | data/ticker_cache.py:117-169 | one injected NO bid of any price and size moves the confirmed ask of a non-empty book down by at most the gap, and then only to its own price |
| TickerCacheModel.AskSpoofBoundTight | data/ticker_cache.py:117-169 | a bid exactly the gap above the best is believed, so the bound is attained |
| TickerCacheModel.BidSpoofBound | data/ticker_cache.py:171-209 | one injected YES bid moves the confirmed bid up by at most the gap |
| TickerCacheModel.SafeAskIff | data/ticker_cache.py:232-268 | the stop-loss ask is the book's, unless the book has none or, with the guard on, is more than the gap under a positive quote |
| TickerCacheModel.SafeAskBound | data/ticker_cache.py:232-268 | no book contents bring the stop-loss ask more than the gap below a positive ticker-channel ask, and the book is overruled exactly when it tries to |
| TickerCacheModel.TickerCache.UpdateOrderbookSnapshot | data/ticker_cache.py:44-73 | replaces both sides by the sorted snapshot; every stored book stays the one its messages lead to |
| TickerCacheModel.TickerCache.StoredBookRefinesMap | data/ticker_cache.py:44-112 | so a stored book whose market's snapshots were whole is the book of its two maps at all times |
| TickerCacheModel.TickerCache.UpdateQuote | data/ticker_cache.py:31-34 | after a positive quote the stop-loss ask of its market is at most the gap below it; books and other markets are left alone |
| TickerCacheModel.TickerCache.StoredQuoteBounds | data/ticker_cache.py:232-268 | that bound holds of whatever book is stored later |
| TickerCacheModel.TickerCache.ChangeLevel | data/ticker_cache.py:88-112 | rebuilds one side's list with one price changed |
| TickerCacheModel.TickerCache.UpdateOrderbookDelta | data/ticker_cache.py:75-112 | changes one price of one side and keeps every stored book the one its messages lead to; a delta before a snapshot or with a missing field changes nothing |
| TickerCacheModel.TickerCache.GetSafeAsk | data/ticker_cache.py:232-268 | computes the safe ask from book and ticker channel |
| LogDedupe.NormalizeTwice | core/log_dedupe.py:29-41 | normalising is idempotent on nested values |
| LogDedupe.FingerprintIff | core/log_dedupe.py:29-57 | two entries share a fingerprint if and only if they have the same field names with values that log alike: different entries keep different fingerprints |
| LogDedupe.CallWrites | core/log_dedupe.py:59-110 | what a call writes and remembers: its entry unless it repeats the scope's last one, and the count when another entry follows or the interval has passed |
| LogDedupe.SummaryReadsBack | core/log_dedupe.py:70-110 | a summary reads back as its copies if and only if no logged field is called count |
| LogDedupe.StepFaithful | core/log_dedupe.py:59-110 | one call keeps the reconstruction of its scope exact if and only if it writes no summary of fields with a count of their own |
| LogDedupe.NothingIsLost | core/log_dedupe.py:59-110 | for every interleaving of scopes, expanding the lines of a scope and appending the held-back copies gives exactly what was logged, when no entry has a count field |
| LogDedupe.CountFieldMisreads | core/log_dedupe.py:70-110 | two equal entries with a count field, an interval apart, already read back wrong |
| LogDedupe.SummariesAreSpaced | core/log_dedupe.py:88-110 | with a monotone clock the interval-driven summaries of a scope are at least the interval apart |
| LogDedupe.DedupeLogger.Log | core/log_dedupe.py:59-110 | the method takes exactly the step of the specification, lines included |
| PaperLedger.BuyFill | execution/paper.py:110-120 | a buy never fills above its limit and fills at the ask when that is at or below it |
| PaperLedger.BuyLeaves | execution/paper.py:40-161 | a buy is refused if and only if it is over the contract cap counting what is held, over the price cap, or not covered at its fill; otherwise cash, position and floor average are those of that fill |
| PaperLedger.SellLeaves | execution/paper.py:163-208 | a sell is refused if and only if fewer contracts are held, fills at the better of bid and limit, and drops a position sold out |
| PaperLedger.OrderLeaves | execution/paper.py:292-360 | a placed buy reserves its whole cost or is refused for lack of cash; a cancel gives the reservation back |
| PaperLedger.PollLeaves | execution/paper.py:387-429 | a resting order fills if and only if the ask is at its bid or under, and what it costs is taken from its reservation |
| PaperLedger.BuyConserves | execution/paper.py:40-161 | a filled buy costs exactly price times quantity and adds exactly the quantity; a refused one changes nothing |
| PaperLedger.SellConserves | execution/paper.py:163-208 | a filled sell pays exactly price times quantity and removes exactly the quantity |
| PaperLedger.PlaceBuyConservesIff | execution/paper.py:311-360 | placing conserves cash plus reservations if and only if it is rejected, its id is fresh, or the overwritten order had nothing reserved |
| PaperLedger.CancelConserves | execution/paper.py:292-303 | a cancel returns exactly the reservation |
| PaperLedger.PollConserves | execution/paper.py:387-429 | a resting fill pays the ask and refunds the rest of its reservation |
| PaperLedger.LedgerConserved | execution/paper.py:40-429 | over every run with fresh ids: balance plus reservations = start minus fill costs plus proceeds, balance never negative, each reservation equals bid times remaining |
| PaperLedger.EntryPriceWithinFills | execution/paper.py:110-160 | the floor-averaged entry price stays between the lowest and the highest fill price since the position was opened |
| PaperLedger.FloorAverageBetween | execution/paper.py:136-142 | a floor average of prices within bounds stays within them |
| PaperLedger.PaperTradeExecutor.AddPosition | execution/paper.py:134-150 | joins a fill to a position at the floor average |
| PaperLedger.PaperTradeExecutor.BuyYes | execution/paper.py:40-161 | the method takes exactly the buy step and keeps the ledger sound |
| PaperLedger.PaperTradeExecutor.SellYes | execution/paper.py:163-208 | the method takes exactly the sell step and keeps the ledger sound |
| PaperLedger.PaperTradeExecutor.PlaceLimitBuy | execution/paper.py:311-360 | the method reserves exactly bid times quantity or rejects |
| PaperLedger.PaperTradeExecutor.CancelOrder | execution/paper.py:292-303 | the method takes exactly the cancel step |
| PaperLedger.PaperTradeExecutor.GetOrderFillInfo | execution/paper.py:387-429 | the method takes exactly the poll step |
| ReconcilerRows.WritesIff | core/settlement_reconciler.py:158-215 | when nothing is worked out and when the call raises, in terms of the trades |
| ReconcilerRows.ClosedIs | core/settlement_reconciler.py:215-236 | a closed position is STOPPED exactly when its last exit was a stop-loss and closed out otherwise, with the profit of its buys at the floor averages |
| ReconcilerRows.SettledIs | core/settlement_reconciler.py:237-256 | what was not sold counts at the settlement, what was sold at its floor average |
| ReconcilerRows.UnsettledIs | core/settlement_reconciler.py:256-260 | otherwise the outcome stays and no profit is written |
| ReconcilerRows.RowIs | core/settlement_reconciler.py:263-308 | which fields of a new and of an existing row a decision writes |
| ReconcilerRows.EntryIs | core/state_machine.py:4777-4814 | an entry opens the row and averages into its entry side, rounded down, and leaves exit side and profit |
| ReconcilerRows.ExitIs | core/state_machine.py:4853-4880 | an exit stops the row out at its price, with the profit of the smaller of the two quantities |
| Reconciler.PnlErrorExact | core/settlement_reconciler.py:175-256 | recorded profit minus cash profit is exactly the remainder dropped by the entry average minus that dropped by the exit average, for full exits and early exit plus settlement alike |
| Reconciler.PnlErrorBound | core/settlement_reconciler.py:175-256 | that error lies strictly between minus the exited and the bought quantity, and is not negative when nothing was exited |
| Reconciler.WrittenPnl | core/settlement_reconciler.py:215-256 | the written profit splits into the exited and the settled part at the floor averages |
| Reconciler.FinalStaysFinal | core/settlement_reconciler.py:263-308 | whoever finalises the row between the read and the upsert, it stays final, and OPEN leaves its outcome and profit as they were |
| Reconciler.RaceKeepsVerdictIff | core/settlement_reconciler.py:158-308 | a row finalised between read and upsert keeps its outcome if and only if nothing is written, the exits leave the position open in an unsettled market, or the verdict is the same; its profit likewise |
| Reconciler.RaceKeepsAveragesIff | core/settlement_reconciler.py:175-308 | its entry average survives only when nothing is written or it is the same; its exit average also when nothing was sold and nothing is settled |
| Reconciler.RaceOverwritesStopOut | core/state_machine.py:4838-4882 | a stop-out of -30 recorded in between becomes a settled win of +50 |
| Reconciler.FinalRowIsFixed | core/settlement_reconciler.py:158-165 | over any run of reconciliations that do not race, a final row is never touched again in any field |
| Reconciler.OutcomeIff | core/state_machine.py:4764-4882 | over any run of the three writers a row ends OPEN if and only if an entry came after the last final write, or it was OPEN and nothing final was written; it ends with a profit if and only if the last final write left one, or it had one and nothing final was written |
| Reconciler.ReopenedIff | core/state_machine.py:4798-4814 | a final row is OPEN after a run of the three writers if and only if an entry was recorded after the last final write |
| Reconciler.FinalForGood | core/settlement_reconciler.py:135-324 | a final row is final in every state of a run if and only if the run records no entry, whatever the reconciliations had read and whatever exits are recorded |
| Reconciler.StaleProfitIff | core/state_machine.py:4798-4814 | over any run of the three writers a row shows a profit while OPEN if and only if an entry was recorded on a row with a profit and nothing final was written since |
| Reconciler.RecoveryShowsOldLoss | core/state_machine.py:4798-4814 | bought at 50, stopped at 20, bought again at 40, reconciled the same day: the OPEN row shows the first exit and a profit of -30 |
| Reconciler.SurvivesIff | core/settlement_reconciler.py:158-308 | one write of any of the three leaves outcome and profit of a final row alone if and only if it is a reconciliation that writes nothing, reaches no verdict or the same one, or a repeat of the recorded exit; an entry never does |
| Reconciler.VerdictForGood | core/settlement_reconciler.py:135-324 | over any run of such writes a final row keeps outcome and profit for good |
| Reconciler.OutcomeStore.RecordEntry | core/state_machine.py:4777-4814 | a new row, or the recovery entry averaged in with the exit side left as it was |
| Reconciler.OutcomeStore.RecordExit | core/state_machine.py:4853-4880 | price, quantity, STOPPED and profit of a row that exists |
| Reconciler.OutcomeStore.OthersWrite | core/state_machine.py:4706-4882 | any number of entries and exits, in any order, between the read and the upsert |
| Reconciler.OutcomeStore.UpdateRow | core/settlement_reconciler.py:276-308 | the field-by-field update of an existing row |
| Reconciler.OutcomeStore.WorkOut | core/settlement_reconciler.py:175-260 | totals, floor averages and outcome of a row that is not final, with the missing-average crash, equal the specified plan |
| Reconciler.OutcomeStore.ReconcileOneMarket | core/settlement_reconciler.py:135-324 | read, work out, upsert against whatever entries and exits have made of the row meanwhile, a reopening included; a row final when read is left alone |

## Left out

- Floating point: prices of fills, temperatures, ages and clocks are `real` or `int`; rounding of a sum of fill counts, of a Celsius conversion and of a forecast minimum is exact here.
- Time zones, DST, ISO and regex parsing, the market-day part of tickers, station look-up: local dates, minutes, hours and parsed values are inputs.
- HTTP, WebSocket, SQL sessions, locks and log emission: replies are arbitrary inputs, tables are maps, a database failure is modelled only where a step names it (reset of the action record, saving of an entry, AM-low read and write, exposure lookup, recording of a filled limit).
- Concurrency inside one step: `_execute_stop_loss` is one step, so its unconditional change from PENDING or FAILED to SUBMITTED cannot be raced here, nor can another process insert the action record in between; a scheduled exit does not let other work in during its thirty-second wait.
- Process restarts of the stop-loss machine: the counted flag is memory only, and the balance theorems are about one process.
- The cycle-state dictionary `_sl_cycles`, watcher registration, the backstop order and the chaser task that a dispatch cancels: none of them is read by the modelled decisions. The result of cancelling the backstop is ignored by the source as well.
- The ladder exit loop `_run_fast_sl_exit` (core/state_machine.py:982-1098): same outcome handling as the panic loop, without its revalidation and latch.
- When the periodic evaluation triggers (spread hold, zero-bid collapse, price sources, deferral to the watcher) and the price of its blind flatten: the trigger and that price are inputs of the step.
- Entry sizing, the outcomes of entries, `hedge_policy`, the bookkeeping of the partial-fill chaser, the restoring of positions at startup and the martingale use of the count: a filled entry and an adoption appear as steps.
- StopLoss.Apply: an external close, an entry and a trigger are accepted in any order and at any time, also where the daemon's own loop would not produce them; the theorems are stronger for it.
- StopLossListings.SellsWithinListings: no market is entered or adopted again while an exit run of it is unfinished; `ReentryOversells` shows why. The record of what was listed is part of the model, not of the daemon.
- Monitor.RunMonitorCycle: no other process writes the positions or the holdings during a cycle; the exchange fills at most the requested quantity at no more than the submitted limit. Writing the `order_count` field and the outcome row of a hedge is left out.
- Monitor.RunMonitorCycle: when an exposure lookup fails and the policy is to let the buy through, the event caps are not claimed; the other bounds are.
- ProfitTake.Exchange.ListOpenSellOrders: a listing is truthful or raises. `LiveTradeExecutor.list_open_sell_orders` returns an empty list on some errors (execution/live.py:738-744), for which the single-order property is not claimed.
- ProfitTake.TrueCancelLeavesNoneIff: the exchange is the live one and prompt, so an order whose cancel is confirmed is off the book when the reply arrives; the bulk cancel of the base executor, which does nothing, is not modelled. Without promptness the calls and the answer are still stated, but not what has left the book.
- ProfitTake.Exchange.PlaceLimitSell: an order whose reply is lost has landed by the time the call returns or never lands; an order that appears later is not modelled.
- TickerCacheModel.TickerCache: last prices and quote timestamps, which no modelled decision reads; the panic loop's quote age is an input there.
- LogDedupe.DedupeLogger: values that are dictionaries or sets, the logger object and the level; a summary is one more line.
- PaperLedger.PaperTradeExecutor: limit sells, which paper mode does not support, and order listings, which change nothing.
- PaperLedger.LedgerConserved: ids of resting orders are fresh and prices are not negative; without that `PlaceBuyConservesIff` says exactly when cash is lost.
- SunriseGate.SunriseEntryGate: diagnostic fields of the latch state, calibration offsets (zero here), the Phoenix overnight band, the sunrise window itself, and the legacy simple check used when no rise is required.
- AmLowGate.LockedIsFinal: table reads of that key succeed and the scheduler does not write the key again; `LockHoldsWithinProcess` needs neither.
- BracketRanges.LadderPartitions: events whose lines do not form the regular ladder.
- Reconciler.PnlErrorBound: positions whose recorded exits exceed their buys.
- Reconciler.OutcomeIff: each of the three writers reads and commits in one session and is one step; a write whose commit fails is no event. Both callers of the exit writer pass STOPPED.
- Reconciler.OutcomeStore: city, family, bracket temperature, entry context and timestamps of the row.
- `AppConfig` parsing, `overnight_low_gate.py`, `scanner.py`, `bracket_scanner.py` and the forecast dip checks are not part of this model.
