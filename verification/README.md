# Verified model of the trading platform's hard parts

A Dafny 4.11 model of the components that keep the platform's books straight, with proofs of what each
of them promises. `dafny verify dfyconfig.toml` checks the whole project.

| modules | what they model |
|---|---|
| `Oms`, `Portfolio`, `Protocol`, `SingleSubmission`, `UnansweredOrders`, `Evidence`, `FillConservation`, `ExecutionService`, `BrokerWords`, `OrderOutcomes` | Order execution and reconciliation: the order state machine, the execution table, the submission protocol as a transition system over one queue, two databases and two concurrent callers, the service's methods as runs of it, and what a call or a pass finally makes of an order, from the broker's words and records to the row. |
| `Lifecycle`, `LifecycleProperties`, `Replay` | Strategy C's protective exits, replayed to an as-of time, and the day's selection of trades. |
| `AiTrade`, `AiJournal`, `Rounding` | The AI paper-trade journal: premium trailing stop, one open trade, daily cap. |
| `CandleBuilder`, `CandleProperties`, `Resample`, `ResampleCommutes` | The streaming candle builder, its batch definition, and resampling. |
| `BackfillCalendar`, `BackfillWindows`, `CandleStore`, `SessionVwap`, `StableSort` | Contract calendar and windows, the additive candle store, the session VWAP and its clock. |
| `Smoothing`, `Indicators` | EMA, RSI, ATR, VWAP and the MACD histogram. |
| `Idempotency`, `RateLimiter`, `PaperReset` | Idempotency keys, the sliding-window limiter, the paper reset. |
| `TriggerLabel`, `RunStats` | Strategy A's research label, and the statistics and folds of a run of trades. |

Where the source updates objects step by step the model is a class or a loop proved against a
specification function, and the theorems are about that function; `Protocol`, `Idempotency` and
`AiJournal` state theirs over all runs.

## Findings

Places where the code does not do what its comments or documentation say; each has a concrete lemma and an
exact condition.

- A reservation is not a compare-and-set for the caller: `mark_order_submitting` returns an order that is
  already SUBMITTING and the caller's test lets it through, so two overlapping `execute_order` calls submit
  twice (`SingleSubmission.LateGrantSubmitsTwice`, `RecoveryRacesDispatcher`; exact condition `SubmittedOnce`).
- A reconciliation pass that runs before an earlier pass's fill event is consumed overcounts the portfolio
  (`FillConservation.SecondPassOvercounts`; exact conditions `ReconcilingTakesMaximum` for a step, `CompletePassIsExact`
  for a pass and `FreshExactlyWhenMaximal` for a run).
- A refusal can bury a submitted order: a call refused at the boundary publishes FAILED_SAFE without touching the row, so
  start-up recovery may submit the still APPROVED order before that event is consumed; the order then becomes FAILED_SAFE
  while the broker works or fills it, and no pass visits it again (`UnansweredOrders.LateRefusalBuries`; exact condition,
  over all runs, `UnansweredStaysListed`). The two calls need not overlap.
- The state table has no edge from SUBMITTING to CANCELLED, nor from SUBMITTING or SUBMISSION_UNKNOWN to EXPIRED, so an
  order whose acknowledgement was lost and that ended that way at the broker keeps its state pass after pass
  (`OrderOutcomes.CancelledStaysSubmitting`; exact condition `EndTakenExactly`).
- The additive save overwrites rows when a batch mixes series (`CandleStore.MixedBatchOverwrites`; exact
  condition `KeepsOldRowsExactly`). The callers in the repository pass one series.
- A command that outlives its TTL can run twice under its key (exact condition, over all runs,
  `Idempotency.OverlapNeedsOverdue`), and neither its completion nor its release checks whose claim the record is
  (`OverdueCompletionIsMisattributed`; exact condition `StrayExactlyWhenReclaimed`). After such a first overlap the damage
  spreads to commands that are in time: a stray release deletes their record and the next request is granted
  (`OverdueReleaseSpreads`; exact condition `InTimeOwnsUnlessRobbed`).
- A rate limit of zero or less raises instead of denying (`RateLimiter.NoLimitNoService`, an exact condition).
- The research label's T1 flag can miss a target that was reached before the stop, because the settings do not order
  the T1 and runner levels and a runner hit ends the scan (`TriggerLabel.T1FlagIsExact`, an exact condition).
- Contract windows stop at the expiry of the end's month, so a range that ends after it is not covered to its
  end (`BackfillWindows.WholeRangeCovered`).

## Model

| member | source | states |
|---|---|---|
| Oms.EdgesClimb | services/oms/state_machine.py:27-94 | Every edge of the order state table climbs in rank, except the PARTIALLY_FILLED self-loop, so no path leads back. |
| Oms.EventAdvances | services/oms/service.py:172-229 | One broker event never lowers the rank, never produces APPROVED, SUBMITTING or an earlier state, leaves terminal states alone, keeps remaining = max(0, quantity - filled) and the order's terms. |
| Oms.BrokerHistoryIsMonotone | services/oms/service.py:172-229 | The same for any number of broker events in any order. |
| Oms.TableByTarget | services/oms/state_machine.py:27-94 | The state table read by target: for each state, the states it can be entered from. |
| Oms.WordMovesOrder | services/oms/service.py:183-219 | What each broker word makes of a submitted, unfinished order: the state it leads to with the reported broker id, fill, remainder and average, or, where the table has no such edge, nothing at all. |
| Protocol.StepFollowsTable | services/oms/state_machine.py:27-94 | Whatever step the system takes, an order stays, its status changes along an edge of the state table only, and its terms do not change. |
| Portfolio.ExecutionIdIdentifies | services/execution/service.py:314-316 | Two execution ids are equal exactly when order id and cumulative quantity are, whatever characters (dashes, digits) the order ids contain. |
| Portfolio.ApplyFillEffect | services/portfolio/repository.py:72-110 | A fill adds its quantity to its own order only, and only the first time its execution id is seen; applying it again changes nothing. |
| Portfolio.HasExecutionMeansStored | services/portfolio/repository.py:86-92 | The lookup by execution id finds exactly the fills of that order and cumulative quantity. |
| SingleSubmission.SubmittedOnce | services/execution/service.py:58-304 | In every run of commands, duplicates, refusals, broker exceptions, crashes, restarts and passes: the broker receives at most as many place_order calls per order as reservations were granted, and at most one is granted exactly when no reservation finds the order SUBMITTING already. |
| SingleSubmission.GrantsAlongRun | services/execution/service.py:234-239 | The invariant behind it: submissions made plus reservations held never exceed the grants, none while the order is unreserved, at least one once it is SUBMITTING. |
| SingleSubmission.DisjointCallsSubmitOnce | services/execution/service.py:137-239 | If no call starts between another call's check and its reservation for the same order, each order is submitted at most once in every run. |
| SingleSubmission.LateGrantSubmitsTwice | services/oms/service.py:251-271 | The condition cannot be weakened: from any run in which an overlapping call is handed an order that is already SUBMITTING, the run continues to two submissions (the docstring's single reservation fails there). |
| SingleSubmission.RecoveryRacesDispatcher | services/execution/service.py:58-66 | Such a run exists: start-up recovery overlapping the dispatcher's call for the same order. |
| SingleSubmission.LiveSubmissionsWereCleared | services/execution/service.py:151-265 | In every run, each LIVE submission that is not reduce-only was made by a task that earlier, in the same call and without leaving it, took the boundary step for that LIVE order with both the health check and the gate passing. |
| SingleSubmission.SubmissionsMatchTheirOrders | services/execution/service.py:90-127 | In every run each submission is of a stored order and carries its mode and reduce-only flag. |
| SingleSubmission.RefusedCallFailsSafe | services/execution/service.py:155-232 | A LIVE call refused by the health check or the gate ends without submitting; its one event, whenever delivered and whatever the order's row is by then, leaves the order FAILED_SAFE unless it was terminal already, and no later broker event changes that. |
| UnansweredOrders.LostReplyIsUnknown | services/execution/service.py:285-304 | A call whose place_order raised or timed out publishes one event that, whenever delivered, makes an APPROVED, SUBMITTING or SUBMISSION_UNKNOWN row SUBMISSION_UNKNOWN and changes no other state. |
| UnansweredOrders.UnansweredStaysListed | services/execution/service.py:234-356 | In every run, crashes included: a LIVE order that was submitted and that the broker has not answered about is SUBMITTING or SUBMISSION_UNKNOWN and on every list that names it, exactly as long as no refusal of a call for it has been delivered; after one it is FAILED_SAFE and on none. |
| UnansweredOrders.LateRefusalBuries | services/execution/service.py:58-66 | A concrete run from an empty start, without overlapping calls, that ends with the order submitted once, filled at the broker, FAILED_SAFE and never listed again. |
| Evidence.RecoveredQuantity | services/execution/service.py:411-434 | Evidence rebuilt from trades claims the matching quantity capped at the order's, and says FILLED exactly when the trades cover the order. |
| Evidence.RecoveredPrice | services/execution/service.py:416-432 | Its average price lies in every range that holds the prices of the matching trades with positive quantity; zero when there is none. |
| Evidence.EvidenceIsTheAnswer | services/execution/service.py:386-437 | The pass acts on exactly the answer found, for an order whose calls do not raise, under its broker id if it has one; else, while SUBMITTING or SUBMISSION_UNKNOWN, under its client reference or, failing that, rebuilt from its trades: first trade's broker id, summed positive quantity capped at the order's, value over quantity. |
| FillConservation.PortfolioNeverExceedsBroker | services/execution/service.py:306-470 | In every run without stale reconciliation readings, a LIVE order's portfolio quantity, now and after the queue drains, never exceeds the broker's cumulative fill, nor does any record of its filled quantity. |
| FillConservation.ReconcilingTakesMaximum | services/execution/service.py:359-470 | Every reconciliation step, for any broker answer, below the broker's fill included, and for FILLED rows too, takes what the portfolio will hold to max(p, n) exactly when its reading was fresh, and above it otherwise. |
| FillConservation.FreshExactlyWhenMaximal | services/execution/service.py:338-470 | In every run of a LIVE order: all readings were fresh exactly when every reconciliation step took that maximum. |
| FillConservation.FreshReadingsAreExactlySafe | services/execution/service.py:359-470 | In particular a step that goes by the broker's current fill ends within it exactly when its reading was fresh, and then on it. |
| FillConservation.CompletePassIsExact | services/execution/service.py:359-470 | A complete pass over any queue takes a listed order to max(what it was going to hold, the fill evidence used) exactly when no fill to another quantity was on its way; otherwise above it. |
| FillConservation.CompletePassRepairs | services/execution/service.py:359-470 | After a complete pass whose events drain, a listed, settled order holds max(what was held, the fill evidence used). |
| FillConservation.PassFollowsBroker | services/execution/service.py:359-470 | After a complete pass whose events drain, a listed, settled order holds max(what was held, n), where n is what a FILLED row says or what the gateway's own records answer under broker id, client reference or trades, and 0 without an answer. |
| FillConservation.ListedExactly | services/execution/service.py:338-356 | A pass visits exactly the listed LIVE orders that are FILLED or between their submission and their end. |
| FillConservation.ListedOnce | services/execution/service.py:347-354 | A list without repetitions makes each visit another order's. |
| FillConservation.CrashThenPassRestores | services/execution/service.py:338-470 | After any run with fresh readings and a crash that drops the queue, one complete pass over records that show the broker's cumulative fill for the order brings the portfolio to it. |
| FillConservation.SecondPassOvercounts | services/execution/service.py:359-470 | A second pass before the first one's fill is consumed leaves the portfolio above the broker: n + m - held. |
| FillConservation.StaleRunOvercounts | services/execution/service.py:338-470 | A concrete run, from an empty start, that ends with n + m > m: the freshness condition is needed. |
| FillConservation.DeliverKeepsEventual | libs/events/bus.py:118-138 | Delivering the head of the queue never changes what the portfolio will finally hold. |
| FillConservation.EventualIsTarget | services/execution/service.py:306-336 | If all undelivered fills of an order are one and the same step up, draining ends exactly at that step, duplicates included. |
| ExecutionService.ExecutionService.ExecuteOrder | services/execution/service.py:137-304 | The method's whole new state is that of one undisturbed call of the protocol, whose outcomes OrderOutcomes.RefusedCall, UnansweredCall and AnsweredCall state for every reply. |
| ExecutionService.CallIsProtocolRun | services/execution/service.py:137-304 | That state is reached by an enabled run of protocol steps, so the run theorems apply to the method. |
| ExecutionService.ExecuteCallEffect | services/execution/service.py:137-304 | One call submits one request or none, publishes something exactly when it met an APPROVED order, and touches no other order. |
| ExecutionService.RepeatedCallIsHarmless | services/execution/service.py:137-149 | A second undisturbed call after a submitting one changes nothing. |
| ExecutionService.ExecutionService.HandleExecutionCommand | services/execution/service.py:78-88 | A command seen before changes nothing; a new one is remembered and executed. |
| ExecutionService.ExecutionService.RecoverApprovedOrders | services/execution/service.py:58-66 | The recovery loop is one call per listed order that was APPROVED. |
| ExecutionService.RecoveryResumesApproved | services/execution/service.py:58-66 | It submits each order left APPROVED exactly once, if its call may submit, and nothing else. |
| ExecutionService.ExecutionService.BrokerAnswer | services/execution/service.py:386-437 | The branches of the broker lookup compute the evidence function, which Evidence.EvidenceIsTheAnswer reads off the broker's records. |
| ExecutionService.ExecutionService.ReconcileLiveOrders | services/execution/service.py:338-474 | The pass loop is the complete pass whose effect on portfolio and rows FillConservation.PassFollowsBroker and OrderOutcomes.PassFollowsAnswer state. |
| ExecutionService.ExecutionService.MarkOrderSubmitting | services/oms/service.py:251-271 | Reserves an APPROVED order, hands back any other as it is, the already SUBMITTING one included. |
| ExecutionService.ExecutionService.Drain | libs/events/bus.py:118-138 | Draining a queue of commands, updates and fills ends in the dispatched state, with what the portfolio was going to hold of every order not commanded or not answered with an immediate fill. |
| ExecutionService.DispatchedHolds | libs/events/bus.py:118-138 | The same of the dispatched state: commands consumed on the way, and what they publish, do not change it. |
| ExecutionService.DispatchedSubmitsOnce | services/execution/service.py:78-88 | However many duplicate commands a queue carries, draining it submits an order at most once, and not at all without a command or if its command was processed before. |
| BrokerWords.FilledWords | services/execution/service.py:128-135 | The handler is told FILLED exactly when the broker says FILLED, COMPLETE or COMPLETED, in either case and with dashes for underscores. |
| BrokerWords.PartialWords | services/execution/service.py:128-135 | PARTIALLY_FILLED exactly for PARTIAL, PARTIALLY FILLED and PARTIALLY_FILLED. |
| BrokerWords.OtherWord | services/execution/service.py:128-135 | Any other word exactly when the broker says it. |
| BrokerWords.NoStatus | services/execution/service.py:130-130 | A missing status is UNKNOWN. |
| BrokerWords.RowFollows | services/oms/service.py:172-229 | A submitted row after the update that carries a broker's answer, word by word: the state, fill, average and broker id, or unchanged where the word is refused. |
| OrderOutcomes.DispatchedRow | services/oms/service.py:172-229 | Draining the queue leaves an order that no command can touch with its row after the updates about it, in their order. |
| OrderOutcomes.DispatchedSubmitsExactly | services/execution/service.py:78-88 | An order whose command waits on the queue, whose call may submit and about which nothing is reported before, is submitted exactly once by draining. |
| OrderOutcomes.UnansweredCall | services/execution/service.py:285-304 | A submitting call without a reply ends, drained, in SUBMISSION_UNKNOWN with terms and fills as they were; a LIVE order stays reconcilable. |
| OrderOutcomes.AnsweredCall | services/execution/service.py:261-284 | A submitting call that is answered ends with the row following the answer, and publishes the fill exactly when the answer says FILLED with a quantity. |
| OrderOutcomes.RefusedCall | services/execution/service.py:151-256 | A call that meets an APPROVED order and may not submit it, unroutable ones included, ends in FAILED_SAFE without a submission. |
| OrderOutcomes.PassFollowsAnswer | services/execution/service.py:359-470 | After a complete pass and its events, an order the broker answers about follows that answer, and the portfolio holds max(held, the answer's fill). |
| OrderOutcomes.PassKeepsOthers | services/execution/service.py:372-385 | A FILLED order and one without an answer keep their rows; of a FILLED one the portfolio then holds at least what the row says. |
| OrderOutcomes.EndTakenExactly | services/oms/state_machine.py:48-90 | CANCELLED ends a reconciled order exactly unless it is SUBMITTING, EXPIRED exactly once it was acknowledged, REJECTED exactly until it is open; otherwise the pass leaves the row as it is. |
| OrderOutcomes.CancelledStaysSubmitting | services/oms/state_machine.py:48-56 | A SUBMITTING order that the broker reports CANCELLED is unchanged after the pass. |
| OrderOutcomes.CrashThenPassSettles | services/execution/service.py:338-470 | After any run with fresh readings, a crash, one pass and its events: the row follows the broker's answer and the portfolio holds the broker's fill. |
| Lifecycle.RunLifecycle | services/historical/strategy_c_shadow_observer.py:59-200 | The two-sided price loop computes the direction-free lifecycle in R units, whose exits LifecycleProperties.LifecycleDecidedBy states: stop before target, both before the stop moves, forced exit at the cutoff, no exit invented. |
| Lifecycle.TestBar | services/historical/strategy_c_shadow_observer.py:96-109 | Both sides' hit tests and excursions are the one test in R units. |
| Lifecycle.TightenStop | services/historical/strategy_c_shadow_observer.py:141-158 | Both sides' break-even and trailing moves are the one move in R units. |
| LifecycleProperties.ResolvedIsFinal | services/historical/strategy_c_shadow_observer.py:73-83 | Once RESOLVED at some as-of, every later as-of over the stream with later bars gives the identical exit, R, MFE and MAE. |
| LifecycleProperties.OpenIsResumable | services/historical/strategy_c_shadow_observer.py:95-200 | An OPEN result is the exact fold state from which the later run continues. |
| LifecycleProperties.MirrorSymmetry | services/historical/strategy_c_shadow_observer.py:84-158 | Reflecting bars and stop about entry and swapping CALL for PUT gives the reflected lifecycle, error case included. |
| LifecycleProperties.LifecycleWithinBounds | services/historical/strategy_c_shadow_observer.py:95-200 | -MAE <= R <= MFE and -1 <= R <= hard target, for every bar sequence and both directions. |
| LifecycleProperties.StopOnlyTightens | services/historical/strategy_c_shadow_observer.py:141-158 | While the trade runs the stop has a closed form in the best excursion and only tightens. |
| LifecycleProperties.ScanIsSound | services/historical/strategy_c_shadow_observer.py:95-158 | MFE, MAE and stop of a running trade are functions of the extremes of the bars alone; exits lie within bounds. |
| LifecycleProperties.FirstTouchDecides | services/historical/strategy_c_shadow_observer.py:95-158 | The trade exits exactly with the first bar that touches the stop as it then stands (-1, then a closed form in the peak) or the target: at the stop if it touched it, else at the target, with MFE, MAE and stop of that bar; else it runs, its last close remembered. |
| LifecycleProperties.LifecycleDecidedBy | services/historical/strategy_c_shadow_observer.py:75-200 | The whole lifecycle without the fold: time, price, reason and R of the first touch; else the forced exit at 15:15 at the last close, or at entry without bars; else the open row. |
| LifecycleProperties.BarCounts | services/historical/strategy_c_shadow_observer.py:73-83 | A bar counts exactly when it starts no earlier than the entry bar's end and ends by the as-of time and by 15:15 of that day. |
| LifecycleProperties.ExitTimeInRange | services/historical/strategy_c_shadow_observer.py:160-183 | An exit never precedes the entry or follows the horizon. |
| Replay.ReplayToAsOf | services/historical/strategy_c_shadow_observer.py:302-382 | The replay loop computes the selection: greedy, one trade at a time, capped, stopping at an open trade or an error. |
| Replay.ReplayIsSerial | services/historical/strategy_c_shadow_observer.py:302-382 | Trades never overlap, number at most the cap, only the last can be open, and each is the lifecycle of a trigger of its own setup, in setup order. |
| Replay.CandidatesAreTheMatches | services/historical/strategy_c_shadow_observer.py:344-363 | Candidate entries are exactly the matching raw entries, each as often as it occurs. |
| Replay.GreedySelection | services/historical/strategy_c_shadow_observer.py:307-335 | A setup contributes nothing exactly when the selection is full or open, or all its triggers are blocked. |
| Replay.CallGoesFirst | services/historical/strategy_c_shadow_observer.py:315-335 | A trigger may be taken from the exit of the trade before it on, that moment included; of two such triggers of a setup the CALL is. |
| Replay.CandidatesPassTheGuard | services/historical/strategy_c_candidate_manifest.py:72-83 | In every replay the candidates are exactly the rows with delay at most 2 minutes, risk at least 0.90 ATR and separation at most 1.80 ATR, all three known. |
| CandleBuilder.CandleBuilder.ProcessQuote | services/market_data/candle_builder.py:28-80 | One quote changes only its instrument's slot, to the streaming step's result, and returns the completed bar if one was crossed. |
| CandleBuilder.StreamRefinesBatch | services/market_data/candle_builder.py:28-80 | For any interleaving with late quotes and source switches, the emitted candles of an instrument are the batch group-by of its own accepted quotes, and the slot is its last run. |
| CandleProperties.EmittedDescribe | services/market_data/candle_builder.py:45-78 | Every emitted candle has the first, highest, lowest and last price and the summed volume changes of one maximal run of its source and bar. |
| CandleProperties.OneCandlePerCrossing | services/market_data/candle_builder.py:40-61 | There is one candle for each place where the source stays and the bar changes: none is missed, and a change of source emits none. |
| CandleProperties.AcceptedExactly | services/market_data/candle_builder.py:34-35 | A quote is accepted exactly when it is newer than every earlier one of its instrument. |
| CandleProperties.VolumeCounts | services/market_data/candle_builder.py:36-38 | A quote adds the increase of the cumulative volume over the quote before it if that has its source and its IST day, and nothing otherwise or when the volume fell. |
| CandleProperties.EmittedAreOrdered | services/market_data/candle_builder.py:45-60 | Emitted bars start strictly one after the other, all before the bar under construction. |
| CandleProperties.VolumeIsPartitioned | services/market_data/candle_builder.py:36-38 | With one source, emitted plus active volume is the sum of all volume changes. |
| CandleProperties.VolumeTelescopes | services/market_data/candle_builder.py:36-38 | On one day without a decrease that sum is the last minus the first cumulative volume. |
| CandleProperties.GridIsProper | services/market_data/candle_builder.py:24-26 | For any positive interval, bar starts are monotone and every time lies in its bar. |
| Resample.ResampleTo15m | services/historical/service.py:595-626 | The bucket loops compute, in bucket order, one candle per bucket that holds exactly its three five-minute bars. |
| Resample.ResampledIsMerged | services/historical/service.py:595-626 | On ordered five-minute candles this is an incremental merge, one candle at a time. |
| Resample.ResampledExactly | services/historical/service.py:595-626 | For any list of candles, sorted or not: a fifteen-minute candle is made exactly for each bucket whose candles are its three five-minute bars and no others, with first open, highest high, lowest low, last close and open interest and summed volume. |
| Resample.ResampledAscend | services/historical/service.py:604-626 | They come in ascending order, at most one a bucket. |
| ResampleCommutes.ResamplingCommutes | services/historical/service.py:595-626 | For every single-source stream, late quotes included, resampling the five-minute builder's candles gives exactly the fifteen-minute builder's candles whose three five-minute bars exist, but for the source tag, and nothing else. |
| ResampleCommutes.BuildersAgree | services/market_data/candle_builder.py:28-80 | The invariant behind it: the bar under construction of the fifteen-minute builder is the join of the five-minute bars so far. |
| CandleStore.HistoricalRepository.SaveCandles | services/historical/repository.py:47-75 | Insert-or-replace of the candles one after the other. |
| CandleStore.KeyIdentifies | services/historical/repository.py:47-75 | Two candles share a row exactly when instrument, interval and start agree. |
| CandleStore.LastWriteStays | services/historical/repository.py:47-75 | Of several candles with one key the last one saved stays; rows with other keys are not touched. |
| CandleStore.BreezeHistoricalBackfill.SaveAdditive | services/historical/breeze_backfill.py:359-379 | Writes the first occurrence of each key the range query did not report; inserted plus skipped equals the input length. |
| CandleStore.AdditiveKeepsOldRows | services/historical/breeze_backfill.py:359-379 | For a batch of one series: every old row is unchanged, each missing key gets its first candle, no other row appears. |
| CandleStore.KeepsOldRowsExactly | services/historical/breeze_backfill.py:363-368 | For any batch: old rows survive exactly when no stored key outside the query is offered with other contents. |
| CandleStore.ClobberedIsForeign | services/historical/breeze_backfill.py:363-368 | Only a candle of another series than the batch's first can be overwritten. |
| CandleStore.MixedBatchOverwrites | services/historical/repository.py:47-75 | A two-series batch that loses a stored row: the docstring's promise fails there. |
| CandleStore.RepeatAddsNothing | services/historical/breeze_backfill.py:369-377 | Repeating a batch of one series inserts nothing. |
| CandleStore.ChunksCompose | services/historical/breeze_backfill.py:335-379 | Saving two batches of a series in turn gives the store of saving their concatenation, overlaps included. |
| Idempotency.IdempotencyRepository.ClaimOrGet | services/api_gateway/idempotency.py:79-167 | Claims a free or expired key, else answers by hash and outcome without changing the record. |
| Idempotency.IdempotencyRepository.CleanupExpired | services/api_gateway/idempotency.py:200-209 | Removes exactly the expired records and counts them. |
| Idempotency.IdempotencyRepository.ExecuteIdempotentCommand | services/api_gateway/idempotency.py:222-317 | All outcomes of one command: no key, bad key, live record, and execution with completion or release. |
| Idempotency.AnsweredExactly | services/api_gateway/idempotency.py:252-298 | An unexpired record answers 422 exactly to a different request, 409 exactly to the same one still running, and a completed one with its stored response under its stored status or 200; any other request executes. |
| Idempotency.KeySyntax | services/api_gateway/idempotency.py:219-243 | A key is valid exactly when it is 1 to 128 letters, digits, underscores, dashes and periods, a single newline after them allowed, as the pattern's end anchor admits it. |
| Idempotency.ExecutionsNeverOverlap | services/api_gateway/idempotency.py:79-209 | In every interleaving of any number of clients whose commands finish within their TTL, no two executions under one key ever overlap, and each running command owns its in-progress record. |
| Idempotency.OverlapNeedsOverdue | services/api_gateway/idempotency.py:79-209 | In every run of requests, completions, releases, vanishing clients and cleanups: two executions under one key never overlap exactly when no request meets a running command of its key that has outlived its claim. |
| Idempotency.InTimeOwnsUnlessRobbed | services/api_gateway/idempotency.py:191-198 | In every run, past overlaps included: a command within its time still owns its record exactly when no other client's release deleted it, and then no request under its key is granted. |
| Idempotency.StrayExactlyWhenReclaimed | services/api_gateway/idempotency.py:169-198 | In every run, a completion or release lands on a record that another claim made exactly when its key was claimed again since and that record is still there; the first one to do so is overdue. |
| Idempotency.StrayNeedsOverlap | services/api_gateway/idempotency.py:169-198 | Up to the first overlap no completion or release lands on another claim's record. |
| Idempotency.CompletedIsReplayed | services/api_gateway/idempotency.py:260-298 | After an in-time completion every same-hash request until the expiry gets the stored response and every other hash a mismatch; none executes or alters the record, whatever happens in between. |
| Idempotency.FreeKeyIsClaimable | services/api_gateway/idempotency.py:79-198 | A request starts executing exactly when the key has no live record; a failed command frees its key at once. |
| Idempotency.OverdueCompletionIsMisattributed | services/api_gateway/idempotency.py:169-189 | A run in which an overdue completion is replayed to the client that claimed the expired key. |
| Idempotency.OverdueReleaseSpreads | services/api_gateway/idempotency.py:191-198 | A run in which, after an overdue release, a request doubles a command that is in time, and that command's completion then lands on the newcomer's record, with nobody overdue. |
| AiTrade.PollsDependOnMaxBid | services/ai_context/trading.py:296-339 | After any polls trailing flag and stop are functions of the peak; while open the peak is the highest bid seen; closing freezes the row. |
| AiTrade.TransitionKeepsShape | services/ai_context/trading.py:305-315 | One transition: trailing exactly when peak >= entry*(1+activation), and then the stop is max(initial, entry, rounded peak*(1-gap)), else the initial one. |
| AiTrade.ClosedStaysClosed | services/ai_context/trading.py:300-301 | CLOSED is absorbing under any polls. |
| AiTrade.OpenMeansInside | services/ai_context/trading.py:316-338 | A row just polled with a quote is open exactly when stop < bid < target and the holding time is not used up; otherwise it closed at that bid and time. |
| AiTrade.PolledStaysPriced | services/ai_context/trading.py:296-339 | A poll keeps a row priced by its policy: initial stop and target, the trail, and on closing price, reason and profit. |
| AiTrade.TransitionClosesRightly | services/ai_context/trading.py:316-338 | A transition that closes does so at the bid, for the first reason of stop (trailing or initial), target and holding time, with profit (bid - entry) * quantity in paise. |
| AiTrade.ArmedAt | services/ai_context/trading.py:307-308 | The trailing stop is armed at the activation percentage above the entry. |
| AiTrade.FailedQuoteMovesNothing | services/ai_context/trading.py:355-369 | A failed quote closes nothing and moves no price; its code is recorded on an open row. |
| AiTrade.UsableExactly | services/ai_context/trading.py:157-209 | A quote is usable exactly when it is Kite's, of the contract, stamped, at most one second ahead and fifteen old, two-sided, and its spread at most 3% of the mid. |
| AiJournal.AITradeService.Submit | services/ai_context/trading.py:211-294 | The whole new journal and the result, for every refusal and for acceptance; AcceptedExactly states when a trade is inserted and what it holds. |
| AiJournal.AcceptedExactly | services/ai_context/trading.py:211-294 | A trade is inserted exactly when the settings permit it, signal and id are new, no trade is open, the IST day is below its cap and the quote is usable, in whole lots and within the notional limit; it enters at the ask, looks from the bid, and its stop and target are the entry moved by the policy's own percentages, rounded to paise. Otherwise the journal is unchanged. |
| AiJournal.CountDayIs | services/ai_context/trading.py:246-256 | The daily count is the number of rows entered on that IST day. |
| AiJournal.AITradeService.PollOnce | services/ai_context/trading.py:341-383 | Every open row is polled; a failed quote changes no price or status. |
| AiJournal.JournalInvHolds | services/ai_context/trading.py:223-383 | In every run with a clock that never goes back: at most one open trade, unique ids and signal ids, no IST day above a positive cap; every row's stop, target, trailing flag and trail are those of its entry, peak and policy, and every closed row has the reason that applied first and the profit of its price to half a paisa. |
| AiJournal.CapSurvivesMidnight | services/ai_context/trading.py:243-273 | The cap holds even when midnight falls between the count and the insert. |
| AiJournal.ResubmissionIsIdempotent | services/ai_context/trading.py:226-233 | Resubmitting a stored signal returns its trade, a conflicting reuse is refused; neither changes the journal. |
| AiJournal.SignalIsRemembered | services/ai_context/trading.py:226-233 | At any later point of any run an accepted signal is found and never inserted again. |
| Rounding.PaiseRounding | services/ai_context/trading.py:274-275 | round(x, 2) is monotone, fixes the paise grid and moves a value by at most half a paisa. |
| Rounding.NearestIsClosest | services/ai_context/trading.py:274-275 | Rounding gives the nearest number, and of two equally near ones the even one. |
| BackfillCalendar.LastWeekdayIsLast | services/historical/breeze_backfill.py:139-144 | The date lies in the month, on the weekday, with no later such day in it. |
| BackfillCalendar.NseIsProper | services/historical/breeze_backfill.py:147-157 | Months have 28 to 31 days and each expiry, overrides included, lies in its month's last eight days. |
| BackfillCalendar.ExpiryIs | services/historical/breeze_backfill.py:147-157 | The expiry is the last Thursday of the month up to August 2025 and the last Tuesday from September 2025 on, save March 2026. |
| BackfillCalendar.March2026Expiry | services/historical/breeze_backfill.py:47-50 | March 2026 expires on Monday the 30th. |
| BackfillCalendar.MonthLengths | services/historical/breeze_backfill.py:139-143 | The months have their calendar lengths, February in leap years included. |
| BackfillWindows.MonthsFrom | services/historical/breeze_backfill.py:159-163 | The months from the first day's month to the last begun by the end. |
| BackfillWindows.ResolveExpiries | services/historical/breeze_backfill.py:166-176 | The expiries of consecutive months, from the month of the start or the one before to the month of the end; the date filter never drops one that is needed. |
| BackfillWindows.NseContractPeriods | services/historical/breeze_backfill.py:179-191 | Windows tile [start, min(end, expiry of end's month)] and give each day the earliest expiry not before it. |
| BackfillWindows.WholeRangeCovered | services/historical/breeze_backfill.py:179-191 | All of the range is covered exactly when its end is not past its month's expiry. |
| BackfillWindows.SplitDateRange | services/historical/breeze_backfill.py:194-205 | Chunks tile the range and hold at most max_days; the error exactly when the end precedes the start. |
| BackfillWindows.EachDayOnce | services/historical/breeze_backfill.py:402-405 | With the default length every day is requested exactly once and no chunk trips the 1000-interval assertion. |
| Indicators.EmaSeries | services/ai_context/features.py:27-38 | Every position holds the seeded smoothing of its prefix, none before the period. |
| Smoothing.SmoothIsWeighted | services/ai_context/features.py:31-37 | Closed form: the recurrence is the weighted sum with equal seed weights and alpha*(1-alpha)^age. |
| Smoothing.WeightsAddUpToOne | services/ai_context/features.py:31-37 | The weights add up to one. |
| Indicators.EmaWithinHull | services/ai_context/features.py:27-38 | Every EMA lies between any bounds on the prices it has seen, and exists exactly from the period on. |
| Indicators.EmaLagsRamp | services/ai_context/features.py:27-38 | On prices that climb steadily every EMA is exactly (period - 1) / 2 bars behind, which only the fraction 2 / (period + 1) gives. |
| Indicators.RsiWilder | services/ai_context/features.py:41-59 | The loops compute the RSI of Wilder's averages of rises and falls. |
| Indicators.RsiBounded | services/ai_context/features.py:56-59 | The RSI lies in [0, 100]. |
| Indicators.RsiReflects | services/ai_context/features.py:41-59 | Reflecting prices turns RSI into 100 - RSI, the zero-loss cases included. |
| Indicators.RsiExtremes | services/ai_context/features.py:56-57 | RSI is 100 exactly on charts that never fall and somewhere rise, 0 exactly on the opposite ones, 50 on flat ones, for any period above one. |
| Indicators.RsiMeans | services/ai_context/features.py:50-59 | RSI is the share of the average rise in both averages, in percent, and 50 when nothing moved. |
| Indicators.MovesAre | services/ai_context/features.py:46-49 | A rise and a fall are the two non-negative parts of a price change. |
| Indicators.WilderSeed | services/ai_context/features.py:50-51 | Wilder's average starts as the mean of the first period values. |
| Indicators.WilderSteps | services/ai_context/features.py:52-55 | Then the old average counts period - 1 times and the new value once. |
| Indicators.AtrWilder | services/ai_context/features.py:62-80 | The loops compute Wilder's average of the true ranges. |
| Indicators.AtrNonNegative | services/ai_context/features.py:62-80 | The ATR is never negative on proper bars. |
| Indicators.AtrVanishesWhenStill | services/ai_context/features.py:65-79 | It is zero exactly when price never moved, within or between bars. |
| Indicators.TrueRangeSpans | services/ai_context/features.py:66-75 | The true range is the span of the bar and the previous close. |
| Indicators.Vwap | services/ai_context/features.py:83-92 | Turnover over volume, none exactly when nothing traded. |
| Indicators.VwapWithin | services/ai_context/features.py:83-92 | The VWAP lies between any bounds on the bars that traded. |
| Indicators.TurnoverAdds | services/ai_context/features.py:83-92 | A bar's turnover is a third of high + low + close times its non-negative volume, and turnovers and volumes add up over stretches. |
| Indicators.ComputeMomentum | services/ai_context/features.py:147-210 | MACD histogram, RSI, their previous values and the crossing and expansion flags. |
| Indicators.HistogramIsCausal | services/ai_context/features.py:151-172 | Without its last bar the chart's histogram is the same minus its last value. |
| Indicators.MacdOfRamp | services/ai_context/features.py:151-160 | On prices that climb by d the MACD line is 7 d from the 26th bar on. |
| Indicators.HistogramOfRamp | services/ai_context/features.py:160-172 | And the histogram, which exists from the 34th bar on, is zero. |
| Indicators.PreviousValuesAreEarlierValues | services/ai_context/features.py:170-172 | The reported previous histogram values are those a call one or two bars earlier reported as current. |
| RateLimiter.RateLimiter.CheckRateLimit | services/api_gateway/rate_limiter.py:37-72 | Verdict and whole new history of one check; other keys unchanged. |
| RateLimiter.TierLimits | services/api_gateway/rate_limiter.py:28-35 | Each tier has its own setting: login, orders, general. |
| RateLimiter.WindowCounts | services/api_gateway/rate_limiter.py:55-63 | A window is the sixty seconds up to and including its end. |
| RateLimiter.QueueIsRecentGrants | services/api_gateway/rate_limiter.py:61-72 | After any run the queue is exactly the grants of the last window: forgetting the rest loses nothing. |
| RateLimiter.AtMostLimitPerWindow | services/api_gateway/rate_limiter.py:54-72 | No sixty-second window, wherever it lies, holds more than limit grants. |
| RateLimiter.DeniedExactlyWhenFull | services/api_gateway/rate_limiter.py:65-69 | A request is denied exactly when the window ending with it holds limit grants. |
| RateLimiter.RetryAfterIsExact | services/api_gateway/rate_limiter.py:67-69 | With no grant in between, a request after retry_after is granted, and one a second earlier is not. |
| RateLimiter.NoLimitNoService | services/api_gateway/rate_limiter.py:65-67 | After any run a request fails with an index error exactly when the limit is zero or less, which the settings admit; nothing is then ever granted. |
| RateLimiter.KeysAreIndependent | services/api_gateway/rate_limiter.py:57-60 | In any run over many keys each key is limited as if it were alone. |
| RunStats.WorstRun | services/historical/strategy_a_research.py:716-722 | The one-pass loop finds the most negative sum of consecutive trades, zero if none is negative. |
| RunStats.MaxDrawdown | services/historical/strategy_a_research.py:713-723 | None exactly for no trades, else the one value that is the worst stretch's result, rounded to six places. |
| RunStats.WorstRunBounds | services/historical/strategy_a_research.py:713-723 | The drawdown is never above zero nor above the total, and zero exactly when no stretch of trades loses. |
| RunStats.DrawdownOfReversed | services/historical/strategy_cd_guard_validation.py:147-156 | Reversing the trades leaves the drawdown unchanged. |
| RunStats.DrawdownOfExtension | services/historical/strategy_cd_guard_validation.py:147-156 | One more trade never hides a drawdown; a winning one never deepens it. |
| RunStats.MaxLosingStreak | services/historical/strategy_cd_guard_validation.py:159-167 | The counter is the length of the longest run of losses: attained, and not exceeded. |
| RunStats.WalkForwardFolds | services/historical/strategy_a_research.py:906-925 | The error exactly for a block size below one, else the folds of the sorted distinct dates. |
| RunStats.FoldsTrainBeforeTest | services/historical/strategy_cd_guard_validation.py:195-205 | Every fold has full blocks and trains strictly before it tests. |
| RunStats.TestBlocksTile | services/historical/strategy_cd_guard_validation.py:195-205 | The test blocks end to end are the dates after the first training block, save a tail shorter than a block. |
| RunStats.FoldCount | services/historical/strategy_a_research.py:917-924 | There are (n - train) div test folds when n >= train, else none. |
| RunStats.FoldsAre | services/historical/strategy_a_research.py:917-924 | Fold k trains on the train dates from the k-th multiple of the test size on and tests on the next ones. |
| TriggerLabel.FindEntry | services/historical/strategy_a_research.py:450-504 | The search ends with the first bar of the validity window that decides anything: invalidation, closed session, chase rejection or entry; else it expires. |
| TriggerLabel.FirstDecisionIsUnique | services/historical/strategy_a_research.py:456-504 | That outcome is unique. |
| TriggerLabel.EntryIsFair | services/historical/strategy_a_research.py:464-504 | An entry is never better than the trigger nor past the chase limit, closed on the right side of the stop inside the session, and a proper bar traded at its price. |
| TriggerLabel.SearchSettledBy | services/historical/strategy_a_research.py:450-504 | The search is settled by the first bar of the window that closes beyond the stop or reaches the trigger: the close counts first, then the session minutes, then the chase limit; else the trade enters, at the open of a bar that gaps past the trigger and else at the trigger. Without such a bar it expires. |
| TriggerLabel.LabelRow | services/historical/strategy_a_research.py:424-612 | The whole label of a row: unlabelable input, missed search, zero risk, or the label of its trade. |
| TriggerLabel.LabelTrade | services/historical/strategy_a_research.py:522-612 | The two-sided price loop computes the direction-free label in R units. |
| TriggerLabel.FlagsMean | services/historical/strategy_a_research.py:548-584 | A level up to the runner's is flagged exactly when price reached it before the stop (the stop's own bar excluded), and the stop comes first exactly when it was touched and T1 was not reached before. |
| TriggerLabel.FlagsNest | services/historical/strategy_a_research.py:580-582 | With 1 <= T1 <= runner, a runner hit implies a T1 hit, and a T1 hit a 1R hit. |
| TriggerLabel.ExcursionsMean | services/historical/strategy_a_research.py:555-584 | The excursions are the furthest of the bars up to and including the first that touches the stop or the runner's level. |
| TriggerLabel.LabelBarCounts | services/historical/strategy_a_research.py:539-546 | A bar counts exactly when it ends after the entry bar and by 15:15 of its day. |
| TriggerLabel.TradeOfRow | services/historical/strategy_a_research.py:522-537 | The labelled trade enters at the found price and bar with the row's side and stop, and has no risk exactly when that price is the stop. |
| TriggerLabel.SessionExitMeans | services/historical/strategy_a_research.py:586-590 | The session result is that of the last such bar's close, or of the entry bar's. |
| TriggerLabel.T1FlagIsExact | services/historical/strategy_a_research.py:580-584 | The T1 flag means what it says on every chart exactly when T1 is not above the runner's level: otherwise a runner hit ends the scan first. |
| TriggerLabel.FirstHitMeans | services/historical/strategy_a_research.py:592-597 | The first-hit R is T1 if reached before the stop, -1 if the stop came first, else the clipped session result; it lies in [-1, T1]. |
| TriggerLabel.LabelIsSymmetric | services/historical/strategy_a_research.py:555-590 | CALL on any bars and PUT on the bars reflected about entry get the same label. |
| PaperReset.OmsConnection.PaperPlan | scripts/reset_paper_oms.py:31-87 | The scan computes the plan or the first complaint; PlanFailsExactly says which, and OnlyPaperGoes and OnlyPaperEventsGo what the plan holds. |
| PaperReset.DeleteIds | scripts/reset_paper_oms.py:107-121 | The 400-row batches together delete exactly the rows whose field is among the values, count them, and cannot fail when no value is referenced. |
| PaperReset.OmsConnection.RemovePaperRows | scripts/reset_paper_oms.py:105-150 | All or nothing: any failure leaves the tables unchanged; it succeeds exactly when the plan is still the current one and no event lacks its order; the counts are the rows removed. |
| PaperReset.OnlyPaperGoes | scripts/reset_paper_oms.py:134-140 | Of the orders, intents and order events exactly the PAPER orders and intents and the events of PAPER orders are gone. |
| PaperReset.OnlyPaperEventsGo | scripts/reset_paper_oms.py:57-79 | An outbox event remains exactly when its payload neither says PAPER nor names a PAPER order or intent, and a processed mark exactly when it is not that of an event that does. |
| PaperReset.PlanFailsExactly | scripts/reset_paper_oms.py:31-79 | A plan exists exactly when all tables exist, each order has an intent and only intents of its mode, and every payload is an object that does not name a PAPER row under another mode; else the complaint is the first failing test's, and in the scan the first failing event's. |
| PaperReset.CleanedKeys | scripts/reset_paper_oms.py:141-145 | Cleaning leaves a foreign-key violation exactly when an event lacked its order before, and never a PAPER order. |
| PaperReset.CleanedMatches | scripts/reset_paper_oms.py:37-46 | Every remaining order has a remaining intent of its own mode. |
| PaperReset.FreshPlanIsEmpty | scripts/reset_paper_oms.py:31-87 | A plan made afterwards succeeds and is empty. |
| PaperReset.SecondResetIsIdle | scripts/reset_paper_oms.py:105-150 | Running the reset again changes nothing. |
| SessionVwap.ExpectedCompletedEnd | services/historical/service.py:175-192 | Before the open or on a weekend the last session's close, after the close today's, and during the session the latest settled boundary, if any. |
| SessionVwap.CompletedEndIsSettled | services/historical/service.py:186-192 | For five and fifteen minutes it is the latest grid point more than two minutes old; none exactly in the first two minutes. |
| SessionVwap.OneMinuteEndIsRecent | services/historical/service.py:189-191 | For one minute the same code steps back one minute only: its end is one to two minutes old. |
| SessionVwap.MarginHoldsExactly | services/historical/service.py:175-192 | From the open on, the returned end is more than two minutes old exactly for the longer intervals during the session and for every interval later than two minutes after the close; at the close its age is zero. |
| SessionVwap.Scan | services/historical/service.py:87-106 | The bar loop accepts exactly the bars that tile the session, five minutes each, sane and traded, and computes their rounded VWAP. |
| SessionVwap.TilesCover | services/historical/service.py:87-105 | Accepted bars cover every moment of the session and number its length over five minutes. |
| SessionVwap.SessionVwapWithin | services/historical/service.py:101-109 | The published value lies between the rounded bounds of the bars that traded. |
| SessionVwap.TilesExactly | services/historical/service.py:87-105 | Accepted bars, one by one: five minutes long, properly ordered positive prices, each starting where the one before ended, from the open to the expected end. |
| SessionVwap.KeptExactly | services/historical/service.py:82-86 | The scan looks at exactly Kite's five-minute bars that start no earlier than 09:15 and end by the expected end. |
| SessionVwap.TurnoverAdds | services/historical/service.py:101-103 | A bar contributes a third of high + low + close times its volume, and contributions add up. |
| SessionVwap.ServiceHours | services/historical/service.py:41-57 | The window is Monday to Friday, 09:20 to 15:30; values are served from the cache for 55 seconds, failures for 10. |
| SessionVwap.AvailableExactlyWhenSessionTiles | services/historical/service.py:77-118 | A value is published exactly when the delivered bars can be arranged into a gapless traded session, in whatever order they came. |
| SessionVwap.HistoricalService.GetNiftyFuturesSessionVwap | services/historical/service.py:41-123 | Outside the session, cached for 55 or 10 seconds, or freshly fetched: the answer and the cache. |

## Left out

Assumptions of the execution protocol:

- Each handler of the order and portfolio services, and each stretch of `execute_order` between two awaits on the
  outside, is one atomic step; in particular the read and the write of `mark_order_submitting`, and the state change
  of a risk decision with its published command.
- Order id and client order id are one key (the column is UNIQUE); `list_orders(limit=500)` and the risk handler's
  `list_orders(limit=50)` cover the relevant orders.
- LIVE acknowledgements carry no fill, the broker's cumulative fill never decreases and it never reports more than it
  filled; Kite's recovery by tag needs client ids of at most twenty characters, which the model takes as given.
- The Breeze contract pattern in `_build_broker_request` is reduced to whether it matches; an empty broker order id
  counts as none; event ids, messages and the outbox's republication of events are not modelled.
- Positions and profit in the portfolio are not modelled, only its execution table; the error for an execution without
  a position is not part of this model.

Other limits:

- The dispatcher serves the execution service's commands, order updates and fills; other topics are not modelled.
- Prices, averages and times with fractions are reals; Python's floats and their rounding errors are not modelled.
  `round` is modelled where its result is stored, compared or published by the session VWAP and the drawdown.
- Replay.ReplayToAsOf: the search for setups, triggers and features, and the statuses returned before the setup loop,
  are inputs; the prefix stability of the whole replay is not claimed, since a later trigger can replace an entry.
- Idempotency.IdempotencyRepository.ClaimOrGet: one atomic step, as its docstring says, although the select and the
  upsert are separate statements; the request hash is an opaque value and response headers are left out.
- Times stored as ISO strings are compared as numbers.
- BackfillWindows.SplitDateRange: requires at least one day a chunk, because below that the source's loop never ends.
- RateLimiter.RateLimiter.CheckRateLimit: tiers and scopes arrive normalised; the lock is not modelled.
- RunStats.WalkForwardFolds: dates are numbers in calendar order, as ISO dates compare; the guard validation's folds are
  the same with 120 and 40 sessions.
- PaperReset.DeleteIds: the batches follow an enumeration of the ids rather than their sorted order, which does not
  change what is deleted; a payload whose ids are neither strings nor absent is not modelled.
- Indicators.ComputeMomentum: candles arrive sorted by end time; the EMA, return and session fields of the result, and
  the final rounding to six places, are not part of it.
- AiJournal.AITradeService.Submit: the quote and the clock readings are arguments, and the whole call is one step, as
  the lock makes it.
- SessionVwap.HistoricalService.GetNiftyFuturesSessionVwap: the feed's answer and the clocks are arguments; the second
  look at the cache under the lock is the same as the first.
- TriggerLabel.LabelRow: the output's rounding to six places is left out; the ATR used for the chase limit is an
  argument, one value per bar.
- Option coverage audits, bootstrap, synthetic candles and research reports add only
  easier members.
- `PaperBrokerAdapter`, broker SDKs, session activation, HTTP routes, WebSocket, authentication, settings validation,
  hashing, backups and migrations are not modelled.
