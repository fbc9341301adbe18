# Verified model of the strategy runtime

This project models the parts of the strategy runtime whose behaviour is decided
by state that several steps share, and proves what those steps keep.

* **Replay.** A backtest reads several historical bar series page by page and
  merges them through a heap (`PagedReplay`). The result is compared with a
  declarative stable merge (`StableMerge`) and with the unpaged heap merge over
  row iterators (`UnpagedReplay`). `Intervals` reads the interval texts.
* **Indicator history.** The runtime agent keeps an in-memory chunk buffer
  (`AgentIndicators`) and resends what has not been acknowledged to a store that
  overwrites by chunk index (`AgentProtocol`). The strategy worker cuts its
  own chunks for many streams and indicators (`ChunkBuffer`); `ChunkAgreement`
  compares both.
* **Session life cycle.** The status machine behind one lock (`Session`), the
  replay loop with its max-loss guard, the finalizer and the stop request
  (`BacktestRun`), the balance the guard watches (`MarginBalance`), the rounding
  of closing quantities (`Quantize`), the planning, placing and checking of
  closing orders (`StopAndClose`), the guard and its close together
  (`GuardedClose`), and the periodic sampler (`Sampler`).
* **Calls over one stream.** Callers, one reader and their pending map, as
  interleaved atomic steps (`CallCorrelation`).
* **Fills and ticks.** Fill events and their running totals (`Fills`), a
  strategy's declared inputs and tick cache (`Inputs`), and the way from a stored
  bar to the strategy that declared it (`Routing`). `BacktestPipeline` runs all of
  it, from the server's pages to the latest tick of every input, and
  `GuardedBacktest` adds the guard and the close after every bar.

`Prelude` and `Text` hold the result types and the string clean-up used by all.

Objects whose methods update fields are classes; a lock-protected body, a queue
operation or one resumption of a generator is one atomic method. Where several
threads interleave, the steps are also given as a function on values, the class
methods are proved to take exactly those steps, and the results hold for every
sequence of steps.

## What the proofs found

* The paged source asks for rows after `start - interval`, so a start that is not
  on the interval's grid also replays the bar that opened before it; the unpaged
  replay does not. `UnpagedReplay.PagingInvisible` gives the exact condition and
  `UnpagedReplay.OffGridStartReplaysEarlierBar` an input.
* A futures target whose quantity lies between two exchange steps by more than
  1e-12 is never closed flat by exact fills: as long as every order is filled for
  just its quantity, every close attempt fails
  (`StopAndClose.StepTargetClosesFlatIff`), and it stays between two steps however
  often that is tried (`StopAndClose.CloseAgainAndAgain`). A quantity of 1.5 with a
  step of 1 is such a target (`StopAndClose.OneAndAHalfIsBetweenSteps`).
* A close that raises inside the max-loss guard is swallowed there and leaves an
  undisturbed session in `stopping`. It happens exactly if the plan is not refused
  and the wallet sync fails after an order that went through, with nothing wrong
  before it (`GuardedClose.GuardBar`, `StopAndClose.Portfolio.StopAndClosePortfolio`);
  `GuardedClose.RaisingCloseLeavesStopping` gives an input. The loop leaves it at
  that unless a page fetched afterwards is broken (`GuardedBacktest.RunGuarded`).
* The worker computes a chunk's end time from its first bar's interval, the agent
  reads it off the last bar; after a gap they differ
  (`ChunkAgreement.SameSealedChunks`, `ChunkAgreement.GapSeparatesEndTimes`).
* The agent's acknowledgement takes a second snapshot after saving the first.
  That is safe because one worker's frames are handled one after the other
  (`AgentProtocol.FrameIsSafe`); stored out of order, an older open chunk would
  replace a sealed one for good (`AgentProtocol.ReorderingLosesAckedChunk`).
* An order that ends FILLED with a last raw fill of no quantity reports no FILLED
  event at all (`Fills.FilledNeedsLastFill`, with an input in
  `Fills.EmptyLastFillHidesFilled`), and a lifecycle update of an order
  without a size reports a different size than the order response
  (`Fills.UpdateAgreesWithResponse`, with an input in `Fills.SizelessOrderDisagrees`).
* The way back from a stored bar to its declared market relies on the name
  `futures` not being a supported market (`Routing.MapsBackIffNoClash`,
  `Routing.ClashMisroutes`), and an okx input's bars are never routed to it
  (`Routing.RoutedUnderItsOwnKey`).
* The engine class lets a key go stale: after a user's strategy is replaced, a key
  that only the old one declared still leads to it. `Routing.ReplacingLeavesStaleKey`
  gives an input, and `Routing.StrategyEngine.CreateStrategy` says exactly which keys
  a call leaves stale. The service itself never gets there, because every session
  has an engine of its own with one strategy in it (`Routing.SoleStrategy`).

## Model

| member | source | states |
|---|---|---|
| StableMerge.MergedIsStableMerge | strategy_service/backtest_pages.py:53-73 | taking the earliest head again and again gives a sequence sorted by (open time, stream), in which every stream's rows appear exactly once and in their own order |
| StableMerge.StableMergeUnique | strategy_service/backtest_pages.py:53-73 | any sequence with those three properties is that one, so they determine the replay order completely |
| StableMerge.MergedLength | strategy_service/backtest_pages.py:53-73 | the merge has as many rows as all streams together |
| PagedReplay.PageAdvance | strategy_service/backtest_pages.py:75-94 | for any page size: a page's rows plus what the server has after its next cursor are exactly what was left, and a broken page is the only way the chain of pages can fail |
| PagedReplay.WindowAdvance | strategy_service/backtest_pages.py:82-94 | moving the cursor to the open time of the k-th remaining row leaves exactly the rows after it |
| PagedReplay.HeapPop | strategy_service/backtest_pages.py:64-66 | removes an entry of the heap than which none is smaller, and only it |
| PagedReplay.LeastEntryIsNext | strategy_service/backtest_pages.py:58-66 | while the heap holds each stream's head, its smallest entry is the next row of the stable merge |
| PagedReplay.SequenceNeverDecides | strategy_service/backtest_pages.py:55-72 | two entries in the heap never belong to one cursor, and their order is that of (open time, stream) alone |
| PagedReplay.PagedBacktestDataSource.constructor | strategy_service/backtest_pages.py:33-51 | a valid source that still owes, for every stream, the stored rows after start minus one step and up to the end |
| PagedReplay.OpenSource | strategy_service/backtest_pages.py:33-51 | every cursor starts one step of its interval before the start time; it raises exactly if an interval cannot be read |
| PagedReplay.PagedBacktestDataSource.Fill | strategy_service/backtest_pages.py:75-94 | fetching a page changes no stream's remaining rows; it raises exactly on an empty page that claims more |
| PagedReplay.PagedBacktestDataSource.Pop | strategy_service/backtest_pages.py:96-101 | hands out the first row the cursor still owes, if any is buffered, and leaves the rest |
| PagedReplay.PagedBacktestDataSource.Start | strategy_service/backtest_pages.py:54-62 | every cursor is filled and its head pushed; it fails exactly on a broken page |
| PagedReplay.PagedBacktestDataSource.Advance | strategy_service/backtest_pages.py:67-73 | after a yield the cursor refills if emptied and its next head goes back into the heap |
| PagedReplay.PagedBacktestDataSource.Next | strategy_service/backtest_pages.py:53-73 | one resumption yields the earliest row still owed, or stops when all cursors are exhausted and read, or raises on a broken page; the invariant is kept |
| PagedReplay.PagedBacktestDataSource.BufferBound | strategy_service/backtest_pages.py:75-101 | the buffered rows never exceed the number of streams times the page size |
| PagedReplay.Replay | strategy_service/backtest_pages.py:53-101 | a run terminates, the rows processed are a prefix of the stable merge, all of it with every cursor fully read unless stopped or raised; it raises only if some stream's pages contain a broken one, and then always unless stopped before |
| UnpagedReplay.RunDeclared | strategy_service/data_loop.py:119-148 | what the strategy receives is the stable merge of all sources that could be opened, or its prefix up to the first bar at which it was told to stop (the service returns the length) |
| Intervals.StepRaisesIff | strategy_service/backtest_pages.py:104-120 | an interval raises exactly if it is not a positive whole number followed by s, m, h or d; otherwise its step is at least a second |
| Intervals.StepOfWritten | strategy_service/backtest_pages.py:104-120 | a number written out with a unit is read back as exactly that many units in milliseconds, also in upper case and with spaces around it |
| Intervals.SameLengthSameStep | strategy_service/backtest_pages.py:112-119 | 60 minutes and one hour, and 24 hours and one day, have the same step |
| UnpagedReplay.PagingInvisible | strategy_service/backtest_pages.py:41-51 | the paged and the unpaged replay give the same sequence if and only if no stream stores a bar strictly between one step before the start and the start |
| UnpagedReplay.PagingInPlainTerms | strategy_service/backtest_pages.py:41-51 | the same in the rows' own times |
| UnpagedReplay.BothReplays | strategy_service/backtest_pages.py:53-101 | both replays run over the same stored streams: unless a page is broken they hand out the same bars in the same order if and only if no stream stores an early bar |
| UnpagedReplay.OnGridHasNoEarlyRow | strategy_service/backtest_pages.py:45-47 | bars and a start on the interval's grid satisfy that condition |
| UnpagedReplay.OffGridStartReplaysEarlierBar | strategy_service/backtest_pages.py:45-47 | a start off the grid for which the two replays differ |
| AgentIndicators.FullChunkStable | internal/runtimeagent/indicator_buffer.go:55-83 | recording further points never changes a chunk that is full |
| AgentIndicators.FullChunkInPlainTerms | internal/runtimeagent/indicator_buffer.go:55-83 | full chunk k covers the limit-many points from k times the limit on: index, count, first and last time, interval and contents, told by the history's own points |
| AgentIndicators.MarkerItems | internal/runtimeagent/indicator_buffer.go:130-153 | a chunk's markers are exactly those of its bars, each with the place of its bar as offset |
| AgentIndicators.NewRepresents | internal/runtimeagent/indicator_buffer.go:36-53 | a new buffer represents the empty history |
| AgentIndicators.AddedRepresents | internal/runtimeagent/indicator_buffer.go:55-83 | after a point the buffer represents the history with that point: sealed and unacknowledged chunks complete, the open chunk the rest |
| AgentIndicators.AckedRepresents | internal/runtimeagent/indicator_buffer.go:103-110 | acknowledging indexes drops those sealed chunks and nothing else |
| AgentIndicators.IndicatorBuffer.constructor | internal/runtimeagent/indicator_buffer.go:36-53 | an empty buffer; a limit that is not positive becomes 1024 |
| AgentIndicators.IndicatorBuffer.AddPoint | internal/runtimeagent/indicator_buffer.go:55-83 | the new state is the one that represents the history with the point, and the answer says whether a chunk was sealed |
| AgentIndicators.IndicatorBuffer.SnapshotForFlush | internal/runtimeagent/indicator_buffer.go:85-101 | every sealed chunk once, in index order, and the open chunk; the buffer is unchanged |
| AgentIndicators.IndicatorBuffer.MarkFinalizedAcked | internal/runtimeagent/indicator_buffer.go:103-110 | exactly the named sealed chunks go |
| AgentProtocol.RunInv | internal/runtimeagent/indicator_buffer.go:55-110 | every interleaving of recording, snapshots, in-order or lost deliveries and acknowledgements keeps the protocol invariant |
| AgentProtocol.ReceiverHoldsPrefixes | internal/runtimeagent/indicator_buffer.go:55-110 | a receiver that overwrites by index only ever holds front parts of the true chunks, under their true index |
| AgentProtocol.AckedChunksAreComplete | internal/runtimeagent/indicator_buffer.go:103-110 | every acknowledged chunk is held in full |
| AgentProtocol.UnackedChunksAreResent | internal/runtimeagent/indicator_buffer.go:85-101 | every sealed chunk that is not acknowledged is in the next snapshot, complete |
| AgentProtocol.DeliveryBringsWholeHistory | internal/runtimeagent/indicator_buffer.go:85-110 | right after a snapshot is applied the receiver holds exactly the history of the time it was taken |
| AgentProtocol.ChunksJoinToHistory | internal/runtimeagent/indicator_buffer.go:55-83 | the chunks put end to end are the recorded history |
| AgentProtocol.ReorderingLosesAckedChunk | internal/runtimeagent/indicator_buffer.go:85-110 | applied out of order, an older open chunk replaces a sealed one that is acknowledged and never resent |
| AgentProtocol.FrameIsSafe | internal/runtimeagent/agent.go:578-645 | handling one frame from an empty wire, with any number of points for the indicator, is a run of the protocol, and what the second snapshot acknowledges has just been stored |
| AgentProtocol.FramesKeepReceiverCurrent | internal/runtimeagent/agent.go:578-645 | over any run of frames with any saves failing, each save that gets through leaves the receiver with the whole history |
| ChunkBuffer.RunConserves | strategy_service/indicators.py:157-211 | over any calls and any interleaving of streams, a pair's emitted chunks and its open chunk are the recorded history cut into consecutive pieces numbered from zero |
| ChunkBuffer.ValuesFromCalls | strategy_service/indicators.py:174-201 | over any calls, the values emitted and open for a stream and indicator are, call by call of that stream, what the call's frame held under the key, null where it held nothing |
| ChunkBuffer.ValuesConserved | strategy_service/indicators.py:174-201 | the values of the chunks followed by the open ones are those of the recorded bars, none lost or moved |
| ChunkBuffer.MarkersFromCalls | strategy_service/indicators.py:187-222 | over any calls, the markers placed by their offsets and the counts of the chunks before are, call by call of that stream, exactly those the call's frame held under the key, in order |
| ChunkBuffer.MarkersDecodeExactly | strategy_service/indicators.py:187-222 | marker offsets plus the counts of the earlier chunks give the bars the markers were recorded at; none is lost, repeated or moved |
| ChunkBuffer.TimesFromCalls | strategy_service/indicators.py:174-233 | a chunk starts at the time of the call that began it, keeps that call's interval, and ends one interval later for each further bar |
| ChunkBuffer.OffsetsInChunk | strategy_service/indicators.py:187-192 | every offset is below its chunk's count |
| ChunkBuffer.ChunkShape | strategy_service/indicators.py:194-211 | chunks are numbered without gaps, full ones have exactly the chunk size, and the open chunk has between one and one less than the chunk size |
| ChunkBuffer.WhoEmitsWhat | strategy_service/indicators.py:194-211 | recording emits only full chunks and flushing only partial ones |
| ChunkBuffer.ParseDefinitions | strategy_service/indicators.py:53-91 | nothing declares no indicator; otherwise it succeeds exactly if every entry has a non-blank string key, a known type, a known or custom pane and dictionary settings, and no trimmed key comes twice; the definitions follow the entries and have distinct keys |
| ChunkBuffer.DeclarationInPlainTerms | strategy_service/indicators.py:53-91 | which declarations are accepted and what a definition takes from its entry, spelled out |
| ChunkBuffer.OpenChunkBuffer | strategy_service/indicators.py:149-155 | a fresh buffer for any definitions; raises exactly for a chunk size that is not positive |
| ChunkBuffer.IndicatorChunkBuffer.constructor | strategy_service/indicators.py:149-155 | a chunker with nothing recorded; valid if the definitions have distinct keys |
| ChunkBuffer.IndicatorChunkBuffer.RecordBar | strategy_service/indicators.py:157-201 | every definition of the stream advances by that bar as its own run says, the chunks returned are those that filled up, and no other stream changes |
| ChunkBuffer.IndicatorChunkBuffer.EmittedValues | strategy_service/indicators.py:157-233 | what a buffer has emitted for a value indicator and still holds open is, call by call, what the frames it was given held under the key |
| ChunkBuffer.IndicatorChunkBuffer.FlushOpen | strategy_service/indicators.py:203-211 | every open chunk is emitted once under its next number, in the order of (stream, indicator), and none stays open |
| ChunkBuffer.KeyBeforeIff | strategy_service/indicators.py:205 | the order of the flush: the stream decides, and the indicator where the streams are equal |
| ChunkBuffer.StringBeforeIff | strategy_service/indicators.py:205 | the order of two strings is that of their first different characters, or the shorter one comes first |
| ChunkAgreement.SameSealedChunks | strategy_service/indicators.py:174-233 | fed the same bars, worker and agent seal the same chunks in index, count, start time and contents; their end times agree if and only if the last bar lies where the first bar's interval puts it |
| ChunkAgreement.AgreementInPlainTerms | strategy_service/indicators.py:213-233 | what agreement of two chunks and timing of bars mean, field by field |
| ChunkAgreement.SameOpenChunk | internal/runtimeagent/indicator_buffer.go:55-83 | the open chunks agree likewise, and were the worker's emitted now its end time would be the agent's exactly under the same condition |
| ChunkAgreement.GapSeparatesEndTimes | strategy_service/indicators.py:213-233 | a history with a gap for which the end times differ |
| Session.TerminalForever | strategy_service/session.py:62-82 | over any steps of any thread a terminal status stays terminal, and failed, stop_failed and recoverable stay what they are |
| Session.OneWinner | strategy_service/session.py:62-73 | at most one transition to a terminal status reports success, none on a terminal session |
| Session.OneLateChange | strategy_service/session.py:75-82 | after the first terminal status the status changes at most once |
| Session.TwoMoments | strategy_service/session.py:62-82 | of any two steps of a run only the earlier can be a winning terminal transition or win the latch, and a change of a terminal status is followed by none |
| Session.LatchOnce | strategy_service/session.py:157-162 | the loss latch is won at most once |
| Session.NeverRunsAgain | strategy_service/session.py:62-82 | once it left running, no step of another thread makes a session run again |
| Session.SessionState.Transition | strategy_service/session.py:62-73 | refused with nothing changed on a terminal session; otherwise status, and bars and error where given |
| Session.SessionState.ForceFailed | strategy_service/session.py:75-82 | fails the session even after a clean end, but keeps failed, stop_failed and recoverable and an error already recorded there |
| Session.SessionState.Finalize | strategy_service/grpc_server.py:1358-1364 | a failed final write makes the session recoverable unless it failed already, where it only fills in a missing error |
| Session.SessionState.RecordRuntimeError | strategy_service/session.py:174-180 | records the trimmed error and says so, unless it is blank or already recorded |
| Session.SessionState.ClearRuntimeError | strategy_service/session.py:182-189 | clears an error that starts with the prefix and says whether it did |
| Session.SessionState.MarkMaxLossCloseTriggered | strategy_service/session.py:157-162 | true for the first caller only |
| BacktestRun.BreachIsLoss | strategy_service/grpc_server.py:1605-1613 | the guard's test holds exactly for a loss of at least the configured share of a positive initial balance, three tenths where none is configured |
| BacktestRun.MaxLossGuard | strategy_service/grpc_server.py:1599-1636 | it acts only if it wins the latch, and then the session is not running any more, however the close went |
| BacktestRun.OpenGuard | strategy_service/grpc_server.py:1599-1627 | it acts exactly on a breach of a running session whose latch is free; otherwise nothing changes |
| BacktestRun.EndGuard | strategy_service/grpc_server.py:1629-1636 | a close that succeeded or failed ends the session, an undisturbed one as stopped or stop_failed |
| GuardedClose.ClosePortfolio | strategy_service/grpc_server.py:2168-2224 | the close on the session's own target keys: when it raises, when it closes everything, and that nothing else changes |
| GuardedClose.GuardBar | strategy_service/grpc_server.py:1584-1636 | the guard on the watched balance with the portfolio's own close, both on one set of target keys: it acts exactly on a breach and never touches what is no target; undisturbed the session ends stopping exactly if the close's sync breaks, stopped exactly if every order goes through and leaves the targets flat, which with exact fills is if and only if the plan is not refused and every target closes flat, and stop_failed otherwise |
| GuardedClose.CloseInPlainTerms | strategy_service/grpc_server.py:222-240 | which holdings are targets, and what keeping the others and being flat mean |
| GuardedClose.RaisingCloseLeavesStopping | strategy_service/grpc_server.py:1584-1636 | a lost balance, one position and one sync that fails, after which the session is stopping |
| BacktestRun.RunBars | strategy_service/grpc_server.py:1839-1853 | with other threads stepping in between: the guard acts at most once, at the first bar completed while running whose loss reaches the threshold, no callback starts after that, and the bars counted are those completed |
| BacktestRun.RunSession | strategy_service/grpc_server.py:1782-1860 | the session is never left running; undisturbed it ends in the status its bars determine, stopping if the guard's close raised |
| BacktestRun.StopStrategy | strategy_service/grpc_server.py:2100-2144 | success is reported only for a session that has ended for good, a failed or confirmed close always ends it, and cancelling changes nothing |
| MarginBalance.NormalizeTargets | strategy_service/grpc_server.py:353-358 | keeps exactly the targets on known exchanges and markets, in normal form |
| MarginBalance.TargetInPlainTerms | strategy_service/grpc_server.py:353-358 | the known exchanges and markets, by name, and what trimming and case change leave of a target |
| MarginBalance.SumTargetRoutes | strategy_service/grpc_server.py:362-392 | the sum, over the futures routes some target lives on, of the wallet balance and the profit of the target positions; and whether there is such a route |
| MarginBalance.WalletMarginBalance | strategy_service/grpc_server.py:320-346 | the sum of all futures routes' margin balances if any has one, else the account's own, else its futures account's, else its total value, else an error |
| MarginBalance.PositionCounts | strategy_service/grpc_server.py:377-390 | a target position adds its stated profit, else quantity times mark minus entry where both prices are positive, else nothing; any other position adds nothing |
| MarginBalance.RouteCounts | strategy_service/grpc_server.py:362-392 | a futures route on a known exchange adds its balance and its targets' profit if a target lives on it and it has a balance; any other adds nothing |
| MarginBalance.PriceDropLowersBalance | strategy_service/grpc_server.py:362-396 | with one target route the watched balance falls by quantity times d when a target's mark falls by d |
| MarginBalance.TargetCloseMarginBalance | strategy_service/grpc_server.py:349-396 | the targets' balance if some target lives on a futures route with a balance, otherwise the portfolio-wide one |
| MarginBalance.WatchedInPlainTerms | strategy_service/grpc_server.py:320-396 | which of the five answers the watched balance is |
| MarginBalance.MarginSplits | strategy_service/grpc_server.py:362-392 | where each route's margin balance is its balance plus all its profit, the portfolio-wide balance is the watched one plus the other routes plus the other positions' profit: nothing is counted twice or dropped |
| MarginBalance.WatchedIsTargetPart | strategy_service/grpc_server.py:362-392 | taking every other route and every other position out of a portfolio leaves the watched balance as it is |
| MarginBalance.OtherPositionsDoNotMatter | strategy_service/grpc_server.py:362-392 | portfolios with the same target routes, balances and target positions are watched at the same balance, whatever and how much else they hold |
| Quantize.QuantizedIsMultiple | strategy_service/grpc_server.py:252-266 | with a step: a whole number of steps, less than one step lost, and above the quantity by at most the tolerance and half a step |
| Quantize.QuantizedIdempotent | strategy_service/grpc_server.py:252-266 | rounding twice is rounding once |
| Quantize.QuantizedMonotone | strategy_service/grpc_server.py:252-266 | a larger quantity never rounds to less, across the nearest and the floor branch |
| Quantize.LeftoverIffNearMultiple | strategy_service/grpc_server.py:258-266 | at most 1e-12 is left over exactly when the quantity is that close to a whole number of steps |
| Quantize.RoundsToNearestIff | strategy_service/grpc_server.py:258-266 | if a multiple of the step is within a billionth of a step (or 1e-12 if more) the result is a nearest multiple, otherwise the largest not above the quantity |
| Quantize.PrecisionKeepsDigits | strategy_service/grpc_server.py:268-274 | with only a precision the result has no more digits than that; with neither set nothing is rounded |
| Quantize.PrecisionRoundsDown | strategy_service/grpc_server.py:268-272 | with only a precision: rounded down, losing less than one last digit |
| Quantize.QuantizedNotNegative | strategy_service/grpc_server.py:252-274 | the result is never negative |
| Quantize.QuantizedLeavesLess | strategy_service/grpc_server.py:252-274 | ordering a rounded quantity that is not zero leaves strictly less than there was, with a step, a precision or neither |
| StopAndClose.BuildStopAndCloseOrders | strategy_service/grpc_server.py:2240-2321 | it refuses exactly on an open order of a target, a position above 1e-12 without a symbol, a target position that rounds to at most 1e-12, or a target asset above 1e-12 outside a backtest or without a positive price; otherwise it lists the orders of the holdings in turn |
| StopAndClose.StepInPlainTerms | strategy_service/grpc_server.py:2266-2319 | for every holding, in its own fields: when it refuses the plan, when it is ordered, and the order's symbol, side, quantity and price |
| StopAndClose.RefusedInPlainTerms | strategy_service/grpc_server.py:2240-2321 | when a close is refused: an open order on a target, or a holding that cannot be closed, in the fields of both |
| StopAndClose.FillInPlainTerms | strategy_service/grpc_server.py:2202-2209 | a fill moves the one holding of its route and symbol, down for a sale and up for a purchase |
| StopAndClose.PlacingInPlainTerms | strategy_service/grpc_server.py:2180-2219 | when all orders go through and when a sync is the first thing to fail, by the time limit, the venue's answers and the syncs |
| StopAndClose.OrderReducesTarget | strategy_service/grpc_server.py:2240-2321 | every order is for an allowed target and against its position, and filling it leaves strictly less in size than before, less than one step where a step is set, and of a spot asset exactly what is locked; any other holding keeps everything |
| StopAndClose.PlanFilled | strategy_service/grpc_server.py:2168-2224 | filling the whole plan closes each target exactly as planned and leaves all other holdings alone |
| StopAndClose.FillsKeepOthers | strategy_service/grpc_server.py:2168-2224 | fills of the plan's orders, of any quantity, never change a holding outside the targets |
| StopAndClose.PortfolioIsFlat | strategy_service/grpc_server.py:2324-2356 | flat exactly when no open order is on a target and no target holds or locks more than 1e-12 |
| StopAndClose.FlatInPlainTerms | strategy_service/grpc_server.py:2324-2356 | which amounts of which holdings keep a portfolio from being flat, with the limits written out |
| StopAndClose.ClosedFlatIff | strategy_service/grpc_server.py:2324-2356 | a target closed as planned is flat exactly when its rounded leftover, and a spot asset's locked amount, is at most 1e-12 |
| StopAndClose.ClosesFlatInPlainTerms | strategy_service/grpc_server.py:2324-2356 | the condition for a flat close in the holding's own fields |
| StopAndClose.Portfolio.StopAndClosePortfolio | strategy_service/grpc_server.py:2168-2224 | it raises exactly if the plan is not refused and a wallet sync breaks before anything else goes wrong, and succeeds exactly if the plan is not refused, every order goes through and all targets are flat then; with exact fills that is if and only if the plan is not refused and every target closes flat; whatever fails, only targets change |
| StopAndClose.Portfolio.PlaceOrders | strategy_service/grpc_server.py:2185-2215 | the fills applied are those the venue reported for the first orders of the plan; it succeeds exactly if every order and every sync goes through, and raises exactly if a sync is the first thing that fails |
| StopAndClose.StepTargetClosesFlatIff | strategy_service/grpc_server.py:252-274 | a futures target with a step closes flat if and only if its quantity is within 1e-12 of a whole number of steps |
| StopAndClose.CloseBetweenSteps | strategy_service/grpc_server.py:2168-2224 | with exact fills, closing a portfolio with a futures target between two steps always fails |
| StopAndClose.BetweenStepsStays | strategy_service/grpc_server.py:252-274 | closing a target that is between two steps leaves it between two steps |
| StopAndClose.CloseAgainAndAgain | strategy_service/grpc_server.py:2168-2224 | any number of closes with exact fills of a portfolio with such a target all fail |
| StopAndClose.OneAndAHalfIsBetweenSteps | strategy_service/grpc_server.py:252-274 | a position that is between two steps |
| Sampler.PeriodicSample.MaybeFire | strategy_service/grpc_server.py:1537-1562 | it fires exactly when this bar makes the bar limit full or the idle limit has passed since the last sample, and then resets both counters before the push, whether or not the push fails |
| Sampler.Run | strategy_service/grpc_server.py:1564-1568 | a run fires as often as the counters say, independently of which pushes fail |
| Sampler.NeverOverdue | strategy_service/grpc_server.py:1537-1568 | after any bar of any run, less than the idle limit has passed since the last sample and fewer bars than the bar limit are unsampled |
| Sampler.SampleBounds | strategy_service/grpc_server.py:1508-1568 | over k bars with a monotone clock it fires at least floor(k/N) and at most floor(k/N) + floor(elapsed/T) times |
| CallCorrelation.RunInv | strategy_service/worker_agent_client.py:124-165 | every interleaving of callers, reader and timeouts keeps the correlation invariant |
| CallCorrelation.OnlyOwnResults | strategy_service/worker_agent_client.py:137-165 | a caller only ever receives a result that arrived under its own id, and no two callers receive the same one |
| CallCorrelation.PendingIsLiveCalls | strategy_service/worker_agent_client.py:137-165 | the pending map holds exactly the registered calls that have not returned |
| CallCorrelation.ReaderNeverBlocks | strategy_service/worker_agent_client.py:290-297 | the reader never waits for room in a caller's queue |
| CallCorrelation.LateResultIsDropped | strategy_service/worker_agent_client.py:290-297 | a result whose caller has returned changes no call and no pending entry |
| CallCorrelation.HandOverTouchesOnlyItsCall | strategy_service/worker_agent_client.py:290-297 | handing over a result changes no call with another id |
| CallCorrelation.PromptResultIsReceived | strategy_service/worker_agent_client.py:137-165 | a waiting caller whose result arrives can always complete with exactly that result |
| CallCorrelation.DuplicateBlocksReader | strategy_service/worker_agent_client.py:290-297 | two results for one id would leave the reader stuck, so the assumption of one result per id is needed |
| CallCorrelation.WorkerAgentClient.Register | strategy_service/worker_agent_client.py:137-140 | adds a fresh empty queue under the call's id |
| CallCorrelation.WorkerAgentClient.HandleFrame | strategy_service/worker_agent_client.py:290-295 | looks up the queue of the result's id, and only that |
| CallCorrelation.WorkerAgentClient.PutReply | strategy_service/worker_agent_client.py:296-297 | puts the result into that queue without waiting |
| CallCorrelation.WorkerAgentClient.EndWait | strategy_service/worker_agent_client.py:153-156 | ends with the result in the caller's queue, which carries its id, or without one if the queue is empty |
| CallCorrelation.WorkerAgentClient.Leave | strategy_service/worker_agent_client.py:163-165 | removes the caller's own id from the map, which was there, and no other |
| CallCorrelation.CallerOutwaitsAgent | strategy_service/worker_agent_client.py:22-29 | the limit sent is the given seconds (30 if unset, at least 0.1) in whole milliseconds, and the caller waits a tenth longer, but at least one and at most five seconds |
| Fills.WalletQty | strategy_service/order_client.py:195-205 | on a futures market BUY keeps the size, SELL negates it and any other side raises; on any other market it is the size |
| Fills.BuildFillEvents | strategy_service/order_client.py:434-482 | nothing while a fill is pending, otherwise one event for each fill that moves something, with its totals; it raises exactly for a moving futures fill without a side |
| Fills.EventsInPlainTerms | strategy_service/order_client.py:434-482 | the events are, in order, those of the fills that move something: each quotes its own fill's price and fee and the order, its quantity is negative only for a futures SELL, and its total is the one before plus its own size |
| Fills.TotalsAddUp | strategy_service/order_client.py:456-462 | each event's executed quantity is the one before plus its own fill, and the last is the sum of all absolute fills |
| Fills.TotalsIncrease | strategy_service/order_client.py:456-462 | executed quantities strictly increase |
| Fills.RemainingIsTheRest | strategy_service/order_client.py:463 | executed and remaining make up the order's size until it is overfilled, then nothing remains |
| Fills.SignedTotal | strategy_service/order_client.py:467-468 | the signed quantities of all events add up to everything executed, with the one sign of side and market |
| Fills.WhoSaysFilled | strategy_service/order_client.py:464-466 | an event says FILLED exactly if the order ended FILLED and it is the event of the very last raw fill |
| Fills.FilledNeedsLastFill | strategy_service/order_client.py:459-466 | some event says FILLED if and only if the order ended FILLED and its last raw fill has a quantity |
| Fills.EmptyLastFillHidesFilled | strategy_service/order_client.py:459-466 | an order that ended FILLED whose only event says PARTIALLY_FILLED |
| Fills.FeedbackFromResponse | strategy_service/order_client.py:383-422 | the delta is the last reported total, negated only for a futures SELL, and zero if no fill moves or one is pending; count, fee and price are those of the events |
| Fills.OrderResponseFromUpdate | strategy_service/order_client.py:259-296 | nothing unless it is a fill with a quantity and a known fee; an error exactly for an unknown exchange, market or side; otherwise the update's totals, completed from the fill |
| Fills.UpdateInPlainTerms | strategy_service/order_client.py:259-296 | which updates count, which routes are known, and every field of the report in the update's own fields |
| Fills.UpdateAgreesWithResponse | strategy_service/order_client.py:259-296 | a fill reported by the order response and by a lifecycle update means the same exactly if the order states its size; otherwise only the sizes differ |
| Fills.SizelessOrderDisagrees | strategy_service/order_client.py:281-286 | a fill of an order without a size for which response and update report different sizes |
| Inputs.NormalizeKeyIdempotent | strategy_service/inputs.py:76-119 | a normalised key normalises to itself |
| Inputs.KeyInPlainTerms | strategy_service/inputs.py:63-119 | which keys are accepted, their normal form, and which error comes first |
| Inputs.TickKeyInPlainTerms | strategy_service/inputs.py:199-204 | the key a tick is filed under: its own names, binance where it names no exchange; a tick without an interval is malformed |
| Inputs.InsertAddsOneKey | strategy_service/inputs.py:188 | inserting into the nested index adds exactly that key |
| Inputs.LevelsMeanKeys | strategy_service/inputs.py:182-195 | a name is at a level of the index exactly when some declared key goes through it |
| Inputs.BuildIndex | strategy_service/inputs.py:182-192 | the nested index holds exactly the normalised declared keys; it raises exactly on a malformed entry |
| Inputs.OpenView | strategy_service/inputs.py:182-195 | a view for every well-formed, non-empty declaration, an error otherwise |
| Inputs.CacheAfterTick | strategy_service/inputs.py:197-215 | after any tick the cache holds, for each declared key, the last tick routed to it and nothing else |
| Inputs.InputView.Update | strategy_service/inputs.py:197-215 | true exactly for a tick on a declared key, which becomes that key's entry and the trigger; otherwise nothing changes, and a malformed tick raises |
| Inputs.InputView.IsDeclared | strategy_service/inputs.py:261-270 | membership in the flat key set, an error for a malformed route |
| Inputs.InputView.DeclaredKeys | strategy_service/inputs.py:272-279 | every declared key exactly once |
| Inputs.ListIndex | strategy_service/inputs.py:272-279 | walking the nested levels lists every key of the index exactly once |
| Inputs.InputView.ChainIsLastTick | strategy_service/inputs.py:290-437 | the exchange, market, symbol, interval chain raises exactly for a malformed or undeclared route, otherwise gives the last tick offered on it or none; the membership tests agree and never raise |
| Inputs.InputView.ChainStopsAtFirstUnknown | strategy_service/inputs.py:296-386 | each accessor accepts a name exactly when some declared key continues with it |
| Routing.StorageCollision | strategy_service/preflight.py:177-181 | two markets share a storage name only if equal or the pair perpetual_futures and futures |
| Routing.StorageNames | strategy_service/preflight.py:177-181 | only perpetual futures are stored under another name |
| Routing.MapsBackIffNoClash | strategy_service/grpc_server.py:1799-1816 | every declared input's stream key leads back to its own market if and only if no two inputs differ just in being perpetual_futures and futures |
| Routing.SupportedNeverClash | strategy_service/inputs.py:63-91 | supported markets never clash |
| Routing.ClashMisroutes | strategy_service/grpc_server.py:1812-1816 | with the storage name declared beside perpetual futures the way back fails |
| Routing.RoutedUnderItsOwnKey | strategy_service/grpc_server.py:415-438 | a bar of a declared input is routed under exactly that input's key if and only if the input is on binance and the bar's interval is not blank |
| Routing.MarketByPositionAgrees | strategy_service/data_loop.py:123-143 | the market found by stream key is the one the unpaged replay remembers by position |
| Routing.TickInPlainTerms | strategy_service/grpc_server.py:415-438 | the tick of any bar: its stream's market, else its own, else futures; its own symbol, price and time; one minute for a missing interval |
| Routing.RouteInPlainTerms | strategy_service/service.py:61-67 | the key a tick is routed under, and when it raises |
| Routing.LastDeclarerIsCreated | strategy_service/service.py:56-58 | a key is routed exactly when some created strategy declares it, and to one that does |
| Routing.StrategyEngine.CreateStrategy | strategy_service/service.py:27-59 | the router leads every key to the last created strategy that declares it, and the user to the new one; a key is stale afterwards exactly if the new one does not declare it and it was stale before or led to the strategy replaced now |
| Routing.StrategyEngine.StaleIffLastDeclarerReplaced | strategy_service/service.py:55-59 | a routed key leads to a strategy that is no user's any more exactly if the last one that declared it is not current |
| Routing.ReplacingLeavesStaleKey | strategy_service/service.py:55-59 | two strategies of one user with different inputs after which the first key is stale |
| Routing.SoleStrategy | strategy_service/grpc_server.py:1232-1260 | in an engine with one strategy, as a session has it, its keys lead to it and none is stale |
| Routing.StrategyEngine.RunningStrategy | strategy_service/service.py:61-71 | the tick reaches the last declarer of its key once and nobody else; false if nobody declared it, an error for an unknown exchange or market |
| Routing.StrategyEngine.HandleOrderUpdate | strategy_service/service.py:73-83 | the update reaches each current strategy of its session once, no other, and says whether there was one |
| Routing.EachKeyGetsItsStream | strategy_service/grpc_server.py:1839-1845 | of any replayed sequence the ticks routed under an input's key are that stream's bars, in order |
| Routing.ReplayServesEveryInput | strategy_service/grpc_server.py:1799-1845 | replaying the stable merge hands every declared binance input all its rows, in order, and nothing else |
| Routing.RouteBars | strategy_service/grpc_server.py:1839-1845 | the strategy that declared the streams receives every bar of the replay, in replay order; other strategies receive none |
| BacktestPipeline.LatestIsLastBar | strategy_service/inputs.py:197-215 | after any replayed sequence the latest tick of an input is its own stream's last bar in it |
| BacktestPipeline.LatestAfter | strategy_service/inputs.py:290-437 | after any prefix of a replay the accessor chain gives each input the last of its own bars in that prefix, or nothing |
| BacktestPipeline.RunBars | strategy_service/grpc_server.py:1839-1845 | from any page-cutting server, the strategy receives a prefix of the stable merge as ticks, all of it unless stopped or a page is broken, and its view has been offered the same ticks |
| BacktestPipeline.Backtest | strategy_service/grpc_server.py:1782-1853 | a run nobody stops fails exactly if an interval cannot be read or a page is broken; otherwise the strategy has received every bar in range and the accessor chain gives, for every input, the last of its bars or nothing |
| GuardedBacktest.CompleteBar | strategy_service/grpc_server.py:1839-1845 | one bar: the strategy and its view get the tick, and unless the callback raises the guard has its turn and the bar is counted |
| GuardedBacktest.LossInPlainTerms | strategy_service/grpc_server.py:1605-1613 | a bar shows a loss exactly when the watched balance has lost the configured share of the initial one |
| GuardedBacktest.Loop | strategy_service/grpc_server.py:1782-1853 | with any other threads: a prefix of the stable merge is received, no completed bar but the last shows a loss, and the guard acts at most once, on that bar, touching targets only |
| GuardedBacktest.RunGuarded | strategy_service/grpc_server.py:1212-1306 | the whole guarded backtest up to the finalizer: the bars received and counted, each input's latest tick, and the end status; left alone it finishes after all bars without a loss, fails on a broken page or a raising callback, and stops on the first bar whose watched balance shows the loss, ending as the close of the portfolio of that bar decides |
| GuardedBacktest.ConcludeSession | strategy_service/grpc_server.py:1304-1306 | a loop that raised fails the session unless it has ended; one that ran out of bars finishes it if it is still running |

## Left out

- PagedReplay.HeapPop: the binary heap's array layout; the heap is a set of entries from which the smallest is taken.
- PagedReplay.Replay: the page server is a fixed function of stream and cursor that keeps a contract (rows increase in open time and have a positive one, a page is a front part of the remaining rows up to the end, the next cursor is the last row's time, rows left imply has_more); has_more may over-claim, which is weaker than exact. A server whose data changes during the run is not covered.
- Intervals.StepRaisesIff: the number is an optional sign and ASCII digits; underscores and other digits, which the service's language also reads, are not modelled.
- UnpagedReplay.PagingInvisible: that the range query of the market_data library includes the start time is an assumption; the library is not part of this model.
- UnpagedReplay.RunDeclared: a source that cannot be opened is skipped; one that fails in the middle is not modelled.
- AgentIndicators.IndicatorBuffer.AddPoint: value and marker JSON is abstract; only the offset stamped on each marker is modelled.
- AgentProtocol.RunInv: snapshots may be lost but are applied in the order taken, and an index is acknowledged only after an applied snapshot contained it; FrameIsSafe shows the agent keeps to the second part.
- AgentProtocol.FramesKeepReceiverCurrent: a failed save ends the worker's stream, so the frames after it arrive over a new connection; connecting again is not modelled, and the buffers live on in the agent. A save is stored whole or not at all, its chunks one after the other, in order; one that stores some of its chunks and then fails is not covered.
- ChunkBuffer.ParseDefinitions: names, colours, units and descriptions are field copies.
- ChunkBuffer.IndicatorChunkBuffer.constructor: a buffer whose definitions repeat a key, which parsed ones never do, can be built but nothing is promised of it.
- Session.SessionState.Transition: the other bookkeeping fields of the session (lease, runtime and live-loop references, counters of unroutable bars) do not take part in the status machine.
- Session manager registry: creating, restoring, finding and cleaning up sessions is dictionary bookkeeping.
- BacktestRun.RunSession: preparing the wallet, preflight and snapshots, and persisting the status, are calls to other services; only a failed final write shows, through the finalizer.
- BacktestRun.StopStrategy: the checks that the caller owns the session and the runtime come before what is modelled.
- MarginBalance.TargetCloseMarginBalance: a wallet that raises while it computes a balance is not modelled.
- Quantize.QuantizedIsMultiple: decimals and floats are exact reals; the 28-digit context and the way through text are not modelled.
- StopAndClose.Portfolio.StopAndClosePortfolio: one-way position mode only; wallet internals beyond signed quantities, the text of refusals, the wall-clock limit (any order may be the one that times out) and the unavailable-runtime refusals are not modelled.
- Sampler.SampleBounds: clock readings are exact reals.
- CallCorrelation.RunInv: ids are fresh and each has at most one result; DuplicateBlocksReader shows the second is needed. Closing the client and calls the agent makes to the worker are not modelled.
- Fills.BuildFillEvents: quantities are exact reals; numeric fields that are missing are zero.
- Fills.FeedbackFromResponse: a response without an order, which gives an empty feedback, and the recovery of unknown attempts.
- Inputs.InputView.Update: attribute access to the trigger (price, candles, order book) is a field copy.
- Routing.StrategyEngine.RunningStrategy: what the strategy does with a tick, and the wrappers that drop the routing answer.
- GuardedClose.GuardBar: what the account answers at a bar and what the portfolio holds are separate inputs; that both describe one wallet is not stated.
- GuardedBacktest.RunGuarded: what a callback leaves behind (the account's answers, the portfolio, whether it raised) is given for every bar rather than computed from the strategy's orders.
- BacktestPipeline.RunBars: the strategy's own code between receiving a tick and offering it to its view is not part of this model.
- Routing.RouteBars: one strategy declares all streams, as a session does; bars carry the market, symbol and interval of their stream.
- Text clean-up covers ASCII letters and white space.
- Live data loops, remote calls, generated stubs, credentials, configuration, logging and validation of strategy code are plumbing around the modelled core.
