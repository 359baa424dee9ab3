# Quad: verified model of the trading core

Quad is a trading bot. This project models the parts of it that hold algorithms, state and arithmetic,
and proves what they promise: the trade journal and its FIFO pairing, the layered configuration tree,
order quantities, submission with retries and order tracking, slicing of large orders, the worker
supervisor, the request limiter, the prediction metrics, the ADX indicator, the language-model client,
the order-book cache and the backtest ledger.

Each module follows one component of the program. Code that updates state step by step is a method or a
class with the same fields, proved against a specification function; the theorems are about that function
over all inputs, all runs or all orders of delivery. Decimal and floating-point numbers are `real`. An
asynchronous operation is one step. Clocks, the exchange, the database, the model API and the strategy are
inputs: a reply, a function from attempts to replies, or a list of steps.

| file | component |
|---|---|
| `TradeJournal.dfy`, `JournalReplay.dfy`, `FifoPnl.dfy` | ingest of exchange fills, repeated ingest, what FIFO realized PnL conserves |
| `ConfigTree.dfy`, `ConfigDiff.dfy`, `ConfigReplay.dfy`, `ConfigManager.dfy` | nested configuration, reports of its changes and their replay, overrides and reloads |
| `Quantity.dfy` | exchange filters, raising a quantity, the risk cap |
| `OrderRetry.dfy`, `OrderGateway.dfy` | submission over a lossy network, order tracking |
| `Twap.dfy`, `TwapExecution.dfy` | planning slices, executing them |
| `Supervisor.dfy`, `RateLimiter.dfy` | sliding-window guards |
| `Calibration.dfy`, `Adx.dfy`, `BacktestLedger.dfy` | numerical loops |
| `ResponseScanner.dfy`, `GroqChat.dfy`, `GroqReactions.dfy` | language-model responses and requests |
| `OrderBook.dfy` | versioned order-book snapshots |
| `Reals.dfy`, `Wrappers.dfy` | sums, counts, products and quotients of reals; Option and Result |

## Where the code does less than it says

Each of these is stated in the model as the code has it, with the exact condition or a concrete input.

- Fills whose order id is 0 are never recognised as journalled, so every ingest inserts them again
  (`UnkeyedRows`, `IncrementalEqualsOneShot`).
- FIFO pairing pops one whole entry per leg whatever the quantities. Each close then drifts by the entry
  price times the difference of the two quantities (`FifoDrift`). The books are conserved throughout exactly
  when no close drifts (`ConservedUnlessDrifting`), which takes matching quantities unless the exchange
  reports the PnL or a price is 0 (`ConservedThroughoutIff`); a half-closed position leaves both queues empty
  (`UnequalLotsHideAPosition`). Partial fills that share an order id and a side are journalled once
  (`NothingSkipped`).
- Replaying reported configuration changes rebuilds the new tree only if every changed path is dot-free and
  its first name is not empty (`ReplayRebuildsIff`, `DottedKeyBreaksReplay`), and the dotted setter cannot
  undo a removal (`SetsRebuildNewIffNoRemoval`).
- Setting a scalar over a section and then a key below it drops the section's other keys from the live view
  until the next reload brings them back; the live view stays what a reload would give exactly as long as no
  set does that (`SetCommutesWithMerge`, `LiveViewNeverDrifts`). Merging is associative only as far as
  `MergeAssociates` says.
- Raising a quantity gives "a step-aligned size" unless it keeps the request, or the minimum quantity, where
  that lies between two steps; the order is then refused after all (`RaisedOnGrid`, `PreparedIsStable`,
  `StraddledOrderIsRefused`).
- The slicer's "every slice clears the floor" holds exactly when the rounded-down even share clears it
  (`UnalignedClearsIff`); after alignment, when two amounts known before planning clear it: the last aligned
  share, and what all of them leave of the parent (`AlignedClearsIff`). In general it can be missed by a unit, and with a step by a unit and a step (`PlanNearlyClears`, `SliceBelowFloor`).
  "The slices still sum exactly" needs an alignment or a parent in whole units (`SumsExactlyIff`).
- The urgent order asks for everything that is not filled, whatever was asked for before: in all, more than
  the parent exactly when an earlier slice did not fill in full, and always less than twice the parent
  (`OverRequestsIff`, `ThreeForTwo`, `ExecutionIsBounded`). Recorded replies are terminal, so of the earlier
  orders only a rejected one whose reply was lost may still be open.
- A submission that fails may still have created an order, exactly when an accepted attempt's reply was
  lost (`FailureMayHideAnOrder`).
- Nothing in the program signals a confirmation except a terminal reply, so a non-terminal acknowledgement
  always times out and nothing stays in active tracking (`Gateway.Submit`). A retry limit below one leaves
  the pending confirmation behind.
- Late, repeated and reordered order-book updates end in the same book exactly when one update dominates the
  others (`ConvergesIff`). With uniform version fields the updates of the greatest version must agree
  (`UniformConvergesIff`); with mixed fields an older seq can come back (`MixedFieldsGoBack`).
- The response scanner finds an object behind "text before" only if that text leaves braces balanced, no string
  open and no backslash pending (`LastUnitBehindText`); one stray closing brace can lose it
  (`StrayBraceLosesTheObject`).
- A backtest entry whose side reads as long but is not the text BUY is filled below the price, as a sale
  would be (`SlippageCosts`).
- The limiter treats a per-call limit of 0 as the default limit (`Limiter.Limit`).

## Model

| member | source | states |
|---|---|---|
| TradeJournal.StableSortSorts | src/quad/execution/engine.py:864 | legs are processed in time order, and none is lost or repeated |
| TradeJournal.SortIsStable | src/quad/execution/engine.py:864 | legs of the same time keep their order |
| TradeJournal.SymbolsByArrival | src/quad/execution/engine.py:858-867 | symbols are taken in the order of their first fill |
| TradeJournal.RowsAreLegs | src/quad/execution/engine.py:868-944 | the new rows of a symbol record, in order and field by field, exactly the legs whose id and side were neither journalled nor met before |
| TradeJournal.SortSplitsByTime | src/quad/execution/engine.py:864 | a later fetch that extends an earlier one sorts into the earlier legs followed by the newer ones |
| TradeJournal.Journal.ExistsForOrder | src/quad/persistence/repositories.py:660-681 | a leg counts as journalled exactly when its id is not 0 and a row has that id and side |
| TradeJournal.Journal.SkipLeg | src/quad/execution/engine.py:880-898 | a journalled leg moves both queues exactly as an inserted one would |
| TradeJournal.Journal.PairLeg | src/quad/execution/engine.py:908-928 | a new leg pops the oldest opposite entry or queues its own price, and earns the reported PnL or the FIFO difference |
| TradeJournal.Journal.IngestLegs | src/quad/execution/engine.py:865-944 | one symbol's loop appends the rows of its specification, which record, in order, exactly the legs not known before, and counts them |
| TradeJournal.GroupBySymbol | src/quad/execution/engine.py:858-860 | symbols in order of first appearance, each with its fills in order |
| TradeJournal.Journal.IngestExchangeTrades | src/quad/execution/engine.py:856-944 | the whole ingest appends the rows of every symbol in order of first appearance, and each added row has a delivered fill with its id, symbol, side, quantity, price, fee and time |
| JournalReplay.SecondPass | src/quad/execution/engine.py:869-898 | a second pass over a longer list inserts the rows the one-shot pass would add beyond the first, plus the id-0 legs again |
| JournalReplay.SymbolsAreIsolated | src/quad/execution/engine.py:858-870 | when no order id is shared across symbols, one symbol's rows do not depend on the others being ingested |
| JournalReplay.IngestRowsOf | src/quad/execution/engine.py:858-944 | an ingest adds to each symbol the rows of that symbol's own legs |
| JournalReplay.IncrementalIngest | src/quad/execution/engine.py:858-944 | ingesting a time prefix and then everything gives the one-shot rows with the prefix's id-0 rows inserted in between |
| JournalReplay.IncrementalEqualsOneShot | src/quad/execution/engine.py:858-944 | incremental and one-shot ingest agree on every symbol if and only if no early fill has order id 0 |
| JournalReplay.ReingestIsIdle | src/quad/execution/engine.py:880-898 | ingesting the same fills again changes nothing when all have ids |
| FifoPnl.QueuesClosedForm | src/quad/execution/engine.py:865-928 | after any legs at most one queue is non-empty, and it holds the prices of the unmatched latest opens in order |
| FifoPnl.PnlWithDrift | src/quad/execution/engine.py:908-928 | for any quantities and any reported PnL, what the legs book is the money they moved, corrected by the open entries at their own quantities, plus the drift of the closes |
| FifoPnl.BookedAndSkipped | src/quad/execution/engine.py:865-944 | for any journal, what a pass books and what its skipped legs realize add up to all the PnL of the legs |
| FifoPnl.SkippedOpeningsLoseNothing | src/quad/execution/engine.py:880-898 | when only opening legs are skipped, the pass books all the PnL of the legs |
| FifoPnl.FifoDrift | src/quad/execution/engine.py:880-944 | for any journal, booked and skipped PnL are that sum; what is booked is the conserved part if and only if the drifts make up for what is skipped |
| FifoPnl.ConservedUnlessDrifting | src/quad/execution/engine.py:908-928 | for any legs, the books are conserved at every moment if and only if no close drifts |
| FifoPnl.ConservedThroughoutIff | src/quad/execution/engine.py:912-928 | with non-zero prices and no reported PnL, the books are conserved at every moment if and only if every close has the quantity of the entry it pops |
| FifoPnl.FifoConservation | src/quad/execution/engine.py:880-928 | for any journal, with equal lots booked and skipped PnL are lot times (sells - buys + open longs - open shorts) |
| FifoPnl.NothingSkipped | src/quad/execution/engine.py:880-944 | every leg is inserted if and only if none was journalled before and no id and side repeat |
| FifoPnl.FlatBookPnl | src/quad/execution/engine.py:880-928 | for any journal, with as many sells as buys booked and skipped PnL are the money the legs moved plus the drift |
| FifoPnl.UnequalLotsHideAPosition | src/quad/execution/engine.py:922-926 | a sale of half a position empties the queues, books 10 for -90 of money and drifts by 100 |
| ConfigTree.SplitJoin | src/quad/config/manager.py:618 | splitting a dotted key gives back the path it was joined from |
| ConfigTree.JoinSplit | src/quad/config/manager.py:618 | splitting any key gives dot-free names that join to it again |
| ConfigTree.SetThenLookup | src/quad/config/manager.py:643-651 | a set path reads the value just set, whatever stood in its way |
| ConfigTree.SetElsewhere | src/quad/config/manager.py:643-651 | every path that is neither a prefix nor an extension reads as before |
| ConfigTree.DotGet | src/quad/config/manager.py:604-627 | the loop finds exactly the value at the path, and nothing for an empty key or a missing segment |
| ConfigTree.MergeLoop | src/quad/config/manager.py:421-443 | the loop over the override's keys in any order computes the recursive merge |
| ConfigTree.MergeLookup | src/quad/config/manager.py:421-443 | what every path of a merge reads: the override wins, sections blend, a scalar on the way hides the base |
| ConfigTree.MergeCovered | src/quad/config/manager.py:421-443 | a merge gives just the override if and only if the override has every key of the base, section by section |
| ConfigTree.MergeAssociates | src/quad/config/manager.py:366-377 | merging three layers from below or from above agrees if and only if no middle scalar hides a section the top one does not cover |
| ConfigTree.ReportedIff | src/quad/config/manager.py:698-720 | a path is reported, with the values of both trees, exactly when it leads through sections of both to values that differ and are not both sections |
| ConfigTree.ChangesIncomparable | src/quad/config/manager.py:702-720 | no reported path is a prefix of another |
| ConfigTree.BlendIsNew | src/quad/config/manager.py:699-722 | replaying a set of changes gives the new tree if and only if every changed path is in it |
| ConfigTree.PatchBlend | src/quad/config/manager.py:643-651 | applying one reported change adds exactly that path to the replayed ones |
| ConfigTree.NoDiffIffEqual | src/quad/config/manager.py:680-722 | nothing is reported exactly when the trees are equal |
| ConfigDiff.DictDiff | src/quad/config/manager.py:680-722 | for any trees, every changed path is reported under its dotted key, and every report is the change of a path with that key |
| ConfigDiff.KeyDiff | src/quad/config/manager.py:702-720 | one key contributes exactly reports of changes below it |
| ConfigDiff.ReportsNothingIff | src/quad/config/manager.py:680-722 | the report is empty exactly for equal trees, whatever their keys |
| ConfigDiff.SoundReplay | src/quad/config/manager.py:680-722 | when changed paths are dot-free with a non-empty first name, applying all reports in any order and with repetitions gives the new tree |
| ConfigReplay.LastWriter | src/quad/config/manager.py:643-651 | what a path with a dotted name reads after a replay is the old value or was written from above |
| ConfigReplay.ReplayRebuildsIff | src/quad/config/manager.py:643-722 | for any trees, applying all reports in any order and with repetitions gives the new tree if and only if every changed path is dot-free with a non-empty first name |
| ConfigDiff.SetsRebuildNewIffNoRemoval | src/quad/config/manager.py:643-651 | for such changes the dotted setter alone rebuilds the new tree if and only if no key was removed |
| ConfigDiff.ReportsAreIndependent | src/quad/config/manager.py:699-722 | for such changes the reported keys are pairwise prefix-incomparable |
| ConfigDiff.DottedKeyBreaksReplay | src/quad/config/manager.py:703-707 | a key with a dot is reported under a path that writes elsewhere |
| ConfigManager.Manager.Get | src/quad/config/manager.py:131-142 | reads the live view at the key |
| ConfigManager.Manager.Set | src/quad/config/manager.py:144-165 | writes the live view and the overrides alike, and notifies with the value before and the new one exactly when they differ |
| ConfigManager.Manager.Reload | src/quad/config/manager.py:185-206 | merges the overrides onto the new base and reports what changed; a failed read changes nothing |
| ConfigManager.OverrideIsDurable | src/quad/config/manager.py:144-206 | after any operations, a key set to a scalar reads it through any later sets elsewhere and any reloads |
| ConfigManager.StaysHeld | src/quad/config/manager.py:373-377 | a held override survives every undisturbing run |
| ConfigManager.SetIsLocal | src/quad/config/manager.py:156-159 | a set leaves every incomparable path of the live view and the overrides as it was |
| ConfigManager.ReloadAfterSet | src/quad/config/manager.py:373-377 | what a reload makes of a key just set: the value, blended with the base where both are sections |
| ConfigManager.ChainMerge | src/quad/config/manager.py:421-443 | merging a single override gives just that override if and only if the base has nothing it would leave beside it |
| ConfigManager.SetCommutesWithMerge | src/quad/config/manager.py:156-159 | for a value of any kind, setting live equals setting in the overrides and reloading if and only if no hidden base key comes back |
| ConfigManager.LiveViewNeverDrifts | src/quad/config/manager.py:144-206 | over any run of sets of any values and reloads of any bases, the live view is at every moment the merge of the last base and the overrides if and only if no set hides base keys |
| Quantity.RoundDownIsGreatest | src/quad/exchange/base.py:515-517 | rounding down gives the greatest step multiple at or below the quantity |
| Quantity.RoundUpIsLeast | src/quad/execution/engine.py:51-54 | rounding up gives the least step multiple at or above it |
| Quantity.NormalizeIsBest | src/quad/exchange/base.py:509-558 | the result is the greatest step multiple at or below the request and passes the filters; a request is refused if and only if no such multiple passes |
| Quantity.NormalizeFixes | src/quad/exchange/base.py:509-558 | a positive quantity is kept if and only if it is a step multiple that passes |
| Quantity.RaiseIsLeast | src/quad/execution/engine.py:31-55 | the raised size passes the filters and no passing step multiple at or above the request is smaller |
| Quantity.RaisedOnGrid | src/quad/execution/engine.py:46-55 | it is a step multiple unless, and only unless, it is the request or the minimum quantity kept between two steps |
| Quantity.PreparedIsSafe | src/quad/execution/engine.py:1010-1113 | an accepted quantity is rounded down by less than a step, or raised within the pre-cap and the risk cap and clearing the filters |
| Quantity.PreparedUnlessHopeless | src/quad/execution/engine.py:1048-1112 | an order is accepted, with the smaller size, whenever some passing step multiple fits the pre-cap and the risk cap |
| Quantity.RefusalReason | src/quad/execution/engine.py:1010-1113 | a refusal names its cause: no positive quantity, the risk cap exceeded by the raised size, or what the first normalization found |
| Quantity.PreparedIsStable | src/quad/exchange/bybit.py:738 | order placement keeps the prepared quantity if and only if it was not kept between two steps |
| Quantity.StraddledOrderIsRefused | src/quad/exchange/bybit.py:738 | two prepared quantities that order placement refuses, one kept from the request and one from the minimum |
| OrderRetry.RetrySubmit | src/quad/common/retry.py:93-113 | the retry loop does what the recursive protocol says: stop on success or rejection, sleep and retry while attempts remain |
| OrderRetry.Course | src/quad/common/retry.py:93-113 | attempts follow one another while they leave no answer; the first answer decides, and only it; the delays in between add up |
| OrderRetry.AtMostOneOrder | src/quad/execution/gateway.py:193-236 | whatever replies are lost, at most one order is created, exactly one on normal return, with at most the allowed attempts |
| OrderRetry.FailureMayHideAnOrder | src/quad/execution/gateway.py:193-236 | after a failure an order exists if and only if some accepted attempt lost its reply |
| OrderRetry.AllTransient | src/quad/common/retry.py:96-110 | when every attempt fails transiently all attempts are made and the delays add up |
| OrderRetry.SleepClosedForm | src/quad/common/retry.py:53-58 | the delays of n attempts add up to 2^(n-1)-1 up to six attempts and 31+30(n-6) beyond |
| OrderGateway.RingIsLast | src/quad/execution/gateway.py:511-515 | pushing onto the ring keeps the last ids of the whole history |
| OrderGateway.LastAreLatest | src/quad/execution/gateway.py:511-515 | the ring holds the latest ids, as many as fit |
| OrderGateway.Gateway.MoveToCompleted | src/quad/execution/gateway.py:511-515 | a tracked order moves from active to the history, an unknown one changes nothing; every id ever tracked stays in exactly one of the two, once |
| OrderGateway.Gateway.Submit | src/quad/execution/gateway.py:134-281 | outcome and created orders of a submission, and active tracking after it: a tracked terminal order is out, another is in as acknowledged, all others are as before; no confirmation stays pending; validity is kept exactly for a retry limit of at least 1 and an id not completed before |
| OrderGateway.Gateway.Track | src/quad/execution/gateway.py:255-273 | a terminal order goes to the history, another becomes active |
| OrderGateway.Gateway.Cancel | src/quad/execution/gateway.py:296-322 | an order leaves active tracking exactly when it is tracked, has an exchange id and the exchange accepts |
| OrderGateway.Gateway.GetStatus | src/quad/execution/gateway.py:342-371 | refreshes status and filled quantity of a tracked order and nothing else; for another id, the first open order that carries it, if the fetch succeeds |
| OrderGateway.Gateway.RefreshState | src/quad/execution/gateway.py:373-475 | after a successful fetch exactly the orders still open stay active, each with what the exchange reports of it; the others enter the history; a failed fetch changes nothing |
| OrderGateway.Gateway.Evict | src/quad/execution/gateway.py:474-475 | the marked orders and no others move to the history |
| OrderGateway.SurvivesIffStillOpen | src/quad/execution/gateway.py:401-472 | which local and exchange states keep an order in active tracking |
| OrderGateway.RefreshUpdates | src/quad/execution/gateway.py:401-472 | what a refresh makes of an order, listed, queried, unknown or out of reach |
| Twap.UnitsConserved | src/quad/execution/twap.py:140-152 | the shares add up to the whole units and differ by at most one |
| Twap.ReduceCount | src/quad/execution/twap.py:127-137 | the greatest slice count up to the wanted one whose even share clears the floor, or one |
| Twap.SlicesNearlyClear | src/quad/execution/twap.py:127-152 | with more than one slice left, each raw share and one unit more clears the floor |
| Twap.SliceBelowFloor | src/quad/execution/twap.py:94-95 | a raw share can stay below the floor by less than a unit, and alignment can cut a clear one far below |
| Twap.RawSpread | src/quad/execution/twap.py:147-152 | raw slices differ by at most one unit |
| Twap.Align | src/quad/execution/twap.py:154-169 | the loop computes the specified alignment |
| Twap.AlignFacts | src/quad/execution/twap.py:154-169 | aligned sizes are positive and add up to the parent exactly; the last takes at least its raw share, the others are whole steps or dust and lose less than a step |
| Twap.Children | src/quad/execution/twap.py:171-201 | children keep sizes and order, and only the last carries the triggers |
| Twap.Plan | src/quad/execution/twap.py:75-210 | the loops compute the specified plan or its division by zero |
| Twap.PlanIsSound | src/quad/execution/twap.py:103-169 | when a plan fails and when it is empty; otherwise at most max_slices positive sizes that fall short of the parent by less than a unit |
| Twap.PlanCount | src/quad/execution/twap.py:105-152 | without a floor or a price there are as many children as whole units, up to the maximum |
| Twap.PlanCountFloored | src/quad/execution/twap.py:105-152 | with both, as many as the greatest count whose even share clears the floor, or one, counted down from the clamped wish, and no more than whole units |
| Twap.PlanInFull | src/quad/execution/twap.py:139-201 | place, size and triggers of every child from the parent, the unit, the step and the number of children |
| Twap.SumsExactlyIff | src/quad/execution/twap.py:147-169 | the sizes add up to the parent if and only if a step is given and several slices are planned, or the parent is in whole units |
| Twap.PlanSpread | src/quad/execution/twap.py:140-152 | unaligned sizes differ by at most one unit |
| Twap.PlanOnStep | src/quad/execution/twap.py:154-169 | aligned, all but the last are whole steps or dust |
| Twap.PlanNearlyClears | src/quad/execution/twap.py:127-169 | each of several sizes and one unit more, and when aligned one step more as well, clears the floor |
| Twap.UnalignedClearsIff | src/quad/execution/twap.py:127-152 | unaligned, every size clears a floor if and only if the whole units of the parent, divided by the slice count and rounded down, do |
| Twap.AlignedSizes | src/quad/execution/twap.py:140-169 | aligned sizes in closed form: the aligned share of one unit more or less, and for the last what these leave of the parent |
| Twap.AlignedClearsIff | src/quad/execution/twap.py:140-169 | aligned, every size clears a floor if and only if the last aligned share and what the aligned shares leave of the parent do, both computed from the parent, unit, step and slice count |
| TwapExecution.Execute | src/quad/execution/twap.py:212-363 | carries out exactly the plan: all slices, or those up to the first timeout, or those up to the first late one with less than half filled and then one order for the rest |
| TwapExecution.FirstEnd | src/quad/execution/twap.py:255-349 | the first slice that ends the execution, and none before it does |
| TwapExecution.Course | src/quad/execution/twap.py:255-349 | slices are submitted while nothing times out and no recorded slice but the last is late with less than half filled; a timeout fails there; a late slice is followed by one order for the rest |
| TwapExecution.FilledWithin | src/quad/execution/twap.py:266-268 | fills never exceed what was submitted, and equal it if and only if every order filled in full |
| TwapExecution.ExecutionIsBounded | src/quad/execution/twap.py:255-355 | on every interleaving no more orders than planned slices, never more filled than the parent, less than twice the parent asked for, and the whole plan submitted unless a timeout or an urgent order ends it |
| TwapExecution.OverRequestsIff | src/quad/execution/twap.py:300-328 | more than the parent is asked for if and only if an urgent order follows slices that did not all fill |
| TwapExecution.PlansAreSliced | src/quad/execution/twap.py:238-240 | every plan meets what the bounds ask of it |
| TwapExecution.ThreeForTwo | src/quad/execution/twap.py:300-328 | a plan of two slices for 2 that asks for 3 |
| Supervisor.Supervisor.PollInfo | src/quad/supervisor.py:169-202 | an exited worker is reaped, its crash recorded and judged |
| Supervisor.Supervisor.SpawnInfo | src/quad/supervisor.py:151-167 | a spawned worker runs with a process and a pid, a failed spawn is marked failed |
| Supervisor.Supervisor.EnsureInfo | src/quad/supervisor.py:118-149 | a running worker is kept; otherwise a failed verdict is cleared and the worker is built and spawned, or marked failed |
| Supervisor.Supervisor.SweepInfo | src/quad/supervisor.py:249-262 | a reaped worker is started again exactly when it stopped with budget left, was not stopped by hand and its tenant is active |
| Supervisor.Supervisor.SweepAll | src/quad/supervisor.py:244-264 | a sweep treats every worker by itself |
| Supervisor.Supervisor.EnsureTenant | src/quad/supervisor.py:109-149 | ensure sweeps all workers and then starts the named one |
| Supervisor.Supervisor.StopTenant | src/quad/supervisor.py:204-238 | stop ends the named worker and touches no other |
| Supervisor.RunKeeps | src/quad/supervisor.py:109-264 | every run keeps: running exactly with a process and a pid, crash times are the recent ones, windows are bounded |
| Supervisor.CrashLoopBound | src/quad/supervisor.py:176-192 | in every window at most max_restarts crashes are followed by a launch, unless an explicit ensure cleared a failed verdict |
| Supervisor.SweepOutcome | src/quad/supervisor.py:240-264 | what a sweep makes of a worker in every case: left alone, stopped, failed, or started again with the new process |
| Supervisor.RestartedIffWithinBudget | src/quad/supervisor.py:169-262 | an exited worker that can be restarted runs again exactly when at most max_restarts crashes of its full history lie in the window |
| Supervisor.EnsureOutcome | src/quad/supervisor.py:118-149 | an ensure leaves the worker running unless its config or its spawn fails, and counts restarts |
| Supervisor.StopOutcome | src/quad/supervisor.py:204-238 | stopping ends the process, keeps a failed verdict and forgets the config path |
| Supervisor.InactiveIsNotLaunched | src/quad/supervisor.py:249-260 | a sweep launches nothing for a tenant that is not active |
| Supervisor.VerdictByFullHistory | src/quad/supervisor.py:177-183 | the verdict on the pruned list is the verdict on the full crash history |
| Supervisor.ClearedOnlyByEnsure | src/quad/supervisor.py:124-128 | only an explicit ensure clears the history |
| Supervisor.StoppedStaysStopped | src/quad/supervisor.py:204-262 | a stopped worker is never launched again without an ensure |
| RateLimiter.EveryWindowIsBounded | src/quad/api/deps.py:128-136 | every half-open window holds at most as many accepted requests as the greatest limit they were judged by |
| RateLimiter.KeyIsBounded | src/quad/api/deps.py:128-147 | the log that a limiter keeps for a key over any calls has that bound |
| RateLimiter.PrunedCounts | src/quad/api/deps.py:131-134 | the pruned queue counts exactly the accepted requests of the current window |
| RateLimiter.ForgetTracks | src/quad/api/deps.py:141-147 | forgetting an expired key loses nothing the window can see |
| RateLimiter.Limiter.Prune | src/quad/api/deps.py:131-133 | after pruning, the queue's length is the number of recent accepted requests in the full log |
| RateLimiter.Limiter.Check | src/quad/api/deps.py:124-139 | a request is accepted if and only if fewer than its limit, or than the configured one for none or 0, of the requests accepted before lie in the window; it joins the log of its key if accepted, and no other log changes |
| RateLimiter.Limiter.Record | src/quad/api/deps.py:134-136 | an accepted request enters the queue, a refused one does not, and the queue goes on representing the log |
| RateLimiter.Limiter.Cleanup | src/quad/api/deps.py:141-147 | exactly the fully expired keys are forgotten, and every log stays represented |
| Calibration.BinsPartition | src/quad/ai/metrics.py:237-244 | every confidence falls in exactly one bin |
| Calibration.HitRate | src/quad/ai/metrics.py:180-198 | the share of wins among directional rows |
| Calibration.BrierScore | src/quad/ai/metrics.py:267-284 | the mean squared gap of directional rows; 0 exactly when every bet was stated with certainty and came true |
| Calibration.ExpectedCalibrationError | src/quad/ai/metrics.py:201-264 | the loop's bins and error are those of the directional rows; each bin counts the bets stated within its edges and averages their numbers and their wins |
| Calibration.MeasureBin | src/quad/ai/metrics.py:247-262 | the bin's share of the error times the number of rows is the distance between its hits and its confidence, and both averages lie between 0 and 1 |
| Calibration.ComputeMetrics | src/quad/ai/metrics.py:292-337 | every count is that of the rows by outcome and direction; bets that all state the same number have it as their mean and its Brier score; every bin counts the bets stated within its edges, with their wins; bias is at most ECE, ECE squared at most Brier, Brier at most 1 |
| Calibration.BetsAreDirectional | src/quad/ai/metrics.py:323-327 | wins and losses are all the directional rows |
| Calibration.InBinStated | src/quad/ai/metrics.py:148-244 | a row is in a bin exactly when its stated number, cut off at 0 and 1, lies in the bin's edges |
| Calibration.ReportIsExact | src/quad/ai/metrics.py:236-262 | a reported bin counts the bets stated within its edges; their numbers average to one within them, their wins to the reported accuracy |
| Calibration.ScoreZeroIff | src/quad/ai/metrics.py:267-284 | the Brier score is 0 if and only if every win states at least 1 and every loss at most 0 or nothing readable |
| Calibration.MetricsMeaning | src/quad/ai/metrics.py:148-337 | the counts from outcomes and directions, and the averages of bets that all state the same |
| Calibration.EceBounds | src/quad/ai/metrics.py:227-264 | binning can neither hide the overall bias nor exceed the mean absolute gap |
| Calibration.SquaresBounds | src/quad/ai/metrics.py:274-284 | the mean absolute gap squared is at most the mean squared gap, which is at most 1 |
| Calibration.Calibrated | src/quad/ai/metrics.py:227-284 | bias <= ECE and ECE^2 <= Brier <= 1 for every non-empty list and bin count |
| Calibration.OneBinIsBias | src/quad/ai/metrics.py:237-252 | with one bin the ECE is exactly the bias |
| Adx.Rma | src/quad/ai/ta.py:74-84 | the loop gives the smoothed value at every index: first the plain mean, then the old average weighed period - 1 times as much as the new value |
| Adx.RmaDominates | src/quad/ai/ta.py:74-84 | smoothing keeps the sum of two non-negative series below a third |
| Adx.RmaWithin | src/quad/ai/ta.py:74-84 | smoothing stays within the range of its values |
| Adx.RmaConstant | src/quad/ai/ta.py:74-84 | a constant series smooths to itself |
| Adx.TrueRange | src/quad/ai/ta.py:100-108 | the loop's true ranges |
| Adx.TrueRangeIsGreatest | src/quad/ai/ta.py:103-107 | the true range is the greatest distance between two of the high, the low and the previous close |
| Adx.DirectionalMovement | src/quad/ai/ta.py:150-165 | the loop's two movements |
| Adx.MovementIs | src/quad/ai/ta.py:153-165 | the greater of the two moves counts on its side if it is positive, the other side shows none, and a tie neither |
| Adx.MovementWithinRange | src/quad/ai/ta.py:153-165 | for well-formed candles both movements are non-negative and together at most the true range |
| Adx.MovementExceedsRangeIff | src/quad/ai/ta.py:103-165 | candle by candle, movement exceeds the true range if and only if the candle gaps past the previous extreme and the previous close lies just beyond it |
| Adx.DiBounds | src/quad/ai/ta.py:178-183 | dominated movements give indicators between 0 and 100 in sum |
| Adx.DxBounds | src/quad/ai/ta.py:187-189 | the index of two non-negative indicators is between 0 and 100 |
| Adx.IndicatorsAreShares | src/quad/ai/ta.py:178-189 | the indicators are hundredths of the average range, and the index those of their sum; 0 where that is 0 |
| Adx.IndicatorBounds | src/quad/ai/ta.py:168-185 | +DI and -DI are non-negative and sum to at most 100 at every index |
| Adx.AdxBounds | src/quad/ai/ta.py:187-192 | the ADX is between 0 and 100 at every index |
| Adx.TrendAt | src/quad/ai/ta.py:153-189 | in a clean rise only +DI is positive, in a clean fall only -DI, and the index is 100 |
| Adx.TrendReadsHundred | src/quad/ai/ta.py:139-192 | the ADX of a clean trend is 100 from its first value, in either direction |
| Adx.ComputeAdx | src/quad/ai/ta.py:139-198 | when each value exists, which index it is, and its bounds |
| Adx.MalformedCandle | src/quad/ai/ta.py:178-180 | a close outside its candle lets an indicator reach 400 |
| ResponseScanner.SafeParseAiResponse | src/quad/ai/groq.py:181-246 | the scanning loop returns the specified text |
| ResponseScanner.WithoutObject | src/quad/ai/groq.py:200-246 | without a complete object: an empty object for nothing, else the span from the first opening to the last closing brace, or all of the trimmed text |
| ResponseScanner.PrintIsNeutral | src/quad/ai/groq.py:212-232 | printed JSON leaves the scanner's depth and string state where it was and never dips below |
| ResponseScanner.StripAppend | src/quad/ai/groq.py:200 | no fence marker reaches across a brace |
| ResponseScanner.StripIsIdentity | src/quad/ai/groq.py:200 | text is unchanged by fence removal exactly when it has no fence |
| ResponseScanner.StripLex | src/quad/ai/groq.py:200 | removing fences does not change how braces and quotes are read |
| ResponseScanner.ScanUnit | src/quad/ai/groq.py:212-232 | a balanced object met at top level is found whole |
| ResponseScanner.ScanWeave | src/quad/ai/groq.py:206-232 | objects with plain text around them are found in order, and nothing else is |
| ResponseScanner.LastUnitWins | src/quad/ai/groq.py:181-238 | the last object is returned, without its fences |
| ResponseScanner.LastObjectComesBack | src/quad/ai/groq.py:181-238 | the last printed object comes back verbatim if and only if it has no fence inside |
| ResponseScanner.LastUnitBehindText | src/quad/ai/groq.py:181-238 | behind any text that leaves braces balanced, no string open and no backslash pending, the last object is returned |
| ResponseScanner.StrayBraceLosesTheObject | src/quad/ai/groq.py:226-232 | a stray closing brace before it reduces an object to its inner part |
| GroqChat.Client.Attempt | src/quad/ai/groq.py:758-787 | a refused attempt makes no call; otherwise one call is made, an answer counted as a request and a rate limit or connection error as a retry |
| GroqChat.Client.Chat | src/quad/ai/groq.py:736-921 | verdict, calls made, keys left and counters of the retry, rotate and fallback recursion |
| GroqChat.CallsWithin | src/quad/ai/groq.py:757-919 | from any point the calls left are bounded by the attempts of this stage and full stages for every spare key and the fallback |
| GroqChat.ChatCost | src/quad/ai/groq.py:757-919 | a chat makes at most max_retries*(keys+1) calls |
| GroqChat.CostIsReached | src/quad/ai/groq.py:757-919 | some server makes it spend exactly that bound, for every pool size |
| GroqChat.StagesGoForward | src/quad/ai/groq.py:374-401 | keys are only dropped, and a switch to the fallback model is never undone |
| GroqChat.StageCost | src/quad/ai/groq.py:757-919 | each key and model together get at most max_retries calls |
| GroqChat.AnswerEndsTheRun | src/quad/ai/groq.py:779-783 | text is returned exactly when a call was answered, and no call follows it |
| GroqReactions.EveryReplyIsAnswered | src/quad/ai/groq.py:757-919 | what follows every call of a chat, by its reply, the keys left, the attempts used with its key and model, and whether the fallback is still to spare |
| GroqReactions.FailsIff | src/quad/ai/groq.py:757-919 | a connection error, a rate limit and a status error are raised if and only if the last call met them, for the first two at the maxRetries-th call with its key and model, and for a rate limit with neither a key nor the fallback to go on with |
| GroqChat.FallbackIgnoresLocalQuota | src/quad/ai/groq.py:758-769 | a fallback run does not depend on the local quota |
| OrderBook.BookCache.HandleBookTicker | src/quad/market_data/engine.py:694-737 | after every message the cache holds, for each named symbol, the book its whole delivery history leaves |
| OrderBook.ParseLevels | src/quad/market_data/engine.py:716-728 | rows with price and size are kept in order |
| OrderBook.LevelsAreRows | src/quad/market_data/engine.py:716-728 | the levels are price and size of exactly the rows that have both, in order |
| OrderBook.StaleElsewhere | src/quad/market_data/engine.py:681-692 | a missing field does not decide, a lower seq does by itself, and a compared field that does not parse makes the update fresh |
| OrderBook.StaleIffNotNewer | src/quad/market_data/engine.py:675-692 | with both fields an update is stale if and only if its (seq, u) is not greater |
| OrderBook.KeptIsGreatest | src/quad/market_data/engine.py:675-737 | the kept book was delivered and no delivered version is greater, whichever version fields are in use |
| OrderBook.ConvergesIff | src/quad/market_data/engine.py:675-737 | whatever version fields the updates carry, every order and repetition of them ends in the same book if and only if some update replaces every different one and is replaced by none |
| OrderBook.UniformConvergesIff | src/quad/market_data/engine.py:682-690 | with the same version fields on all updates, if and only if those of the greatest version agree |
| OrderBook.Convergence | src/quad/market_data/engine.py:694-737 | two deliveries of the same uniform updates end in the same book when those of the greatest version agree |
| OrderBook.TiesMustAgree | src/quad/market_data/engine.py:685-690 | two updates of one version converge if and only if their books are equal |
| OrderBook.MixedFieldsGoBack | src/quad/market_data/engine.py:681-690 | an update without seq lets an older seq overwrite a newer one |
| BacktestLedger.TotalRemove | src/quad/backtesting/engine.py:458-471 | a sum over the open positions does not depend on their order |
| BacktestLedger.EnterConserves | src/quad/backtesting/engine.py:196-220 | an entry moves cash into margin and fees, overwritten margin included |
| BacktestLedger.ExitConserves | src/quad/backtesting/engine.py:222-257 | an exit returns the margin with PnL minus commission and splits it into wins and losses |
| BacktestLedger.SlippageCosts | src/quad/backtesting/engine.py:430-436 | slippage makes an entry worse for its position if and only if the side is spelled BUY or reads as short; the exact fill price |
| BacktestLedger.EntryOutcome | src/quad/backtesting/engine.py:193-220 | when an ENTER is filled, and what it pays, opens and records; leverage times the locked margin is the notional |
| BacktestLedger.ExitOutcome | src/quad/backtesting/engine.py:222-257 | which position an EXIT closes, on any day, and what it earns, pays and releases |
| BacktestLedger.ActionsFollow | src/quad/backtesting/engine.py:189-257 | the actions of a step take effect one after the other |
| BacktestLedger.StepsFollow | src/quad/backtesting/engine.py:168-266 | a step trades its actions and then marks prices; a step without actions, or whose strategy failed, changes nothing |
| BacktestLedger.MarkedAtLatest | src/quad/backtesting/engine.py:259-266 | marking gives each position the price of the last action that has one for it, and changes nothing else |
| BacktestLedger.MarkMovesEquity | src/quad/backtesting/engine.py:268-272 | a marked price moves the equity by the price change times the quantity |
| BacktestLedger.CurveFollows | src/quad/backtesting/engine.py:268-290 | every step with actions adds cash plus market value to the curve |
| BacktestLedger.RoundTrip | src/quad/backtesting/engine.py:196-252 | an entry and its exit change cash by the price move times quantity minus both fees, whatever the leverage, and leave no position |
| BacktestLedger.MarkingKeepsMargin | src/quad/backtesting/engine.py:259-266 | marking prices moves no money |
| BacktestLedger.MoneyIsConserved | src/quad/backtesting/engine.py:136-257 | over every run cash, open margin and overwritten margin are the start plus PnL minus fees, and gross wins minus gross losses are the PnL |
| BacktestLedger.EntriesAreCapped | src/quad/backtesting/engine.py:196-212 | no day exceeds the entry cap, and trade ids ascend without repetition |
| BacktestLedger.DrawdownStep | src/quad/backtesting/engine.py:272-282 | one more equity point keeps the result the greatest drawdown from the peak so far |
| BacktestLedger.WorstIsPairwise | src/quad/backtesting/engine.py:272-282 | it is also the greatest decline between any two points, among declines to a non-negative equity |
| BacktestLedger.NegativeEquityFallsFurther | src/quad/backtesting/engine.py:274-278 | a decline to a negative equity that is greater from a lower start |
| BacktestLedger.ComputePositionsValue | src/quad/backtesting/engine.py:458-471 | the loop sums current price times quantity over all positions |
| BacktestLedger.ProcessAction | src/quad/backtesting/engine.py:192-257 | the statements of an ENTER or EXIT, one by one, give the specified state; any other action changes nothing |
| BacktestLedger.Run | src/quad/backtesting/engine.py:136-290 | the final ledger conserves money and respects the cap, and the reported drawdown is the greatest drawdown from the running peak of the equity curve |

## Left out

- Rounding, binary floating point with its NaN, and Decimal precision: all amounts are `real`, before any final rounding.
- Timing of real clocks, jitter, logging, heartbeats, last-error texts and callbacks' effects.
- The exchange transport, SQL storage, YAML reading, environment variables, schema validation, HTTP routes, authentication, chat bots and command-line tools.
- Interleavings inside one asynchronous operation: every operation is one step, also when it awaits.
- Configuration values are immutable trees; sharing of nested dictionaries between the live view and the overrides, Python's equality of 1 and True, and get_section are not modelled. The base passed to a reload is the merged and validated tree.
- JournalReplay.IncrementalEqualsOneShot: assumes that order ids are not shared across symbols and that the later fetch extends the earlier one; the limit on the number of fetched fills, the hashing of textual ids, database failures during the ingest and the tenant predicate are not modelled.
- OrderGateway.Gateway.RefreshState: the order in which several evicted orders enter the history is left open, and the attached take-profit and stop-loss prices, which the gateway's copy of the request does not carry, are not modelled.
- OrderRetry.AtMostOneOrder: the exchange is taken to refuse a client id it has accepted before.
- Twap.Plan: child order fields other than size, index and triggers are copied unchanged and not modelled.
- TwapExecution.Execute: fill callbacks, sleeping between slices and the clock behind the urgency test; whether it is late after a slice is an input. A timeout ends the execution, as the exception does.
- Quantity.PreparedIsStable: assumes that filters and mark price do not change between preparing and placing; the filter cache's time to live and the final quantize, which keeps an exact multiple, are not modelled. A cap that does not parse counts as no cap.
- Quantity: normalize_price rounds to the nearest tick and adds nothing to the step grid.
- Supervisor.Supervisor.StopTenant: signals and waiting are one step that ends the process; the rendered config file itself is not modelled.
- RateLimiter.Limiter.Check: the refusal is a Boolean instead of an HTTP error.
- GroqChat.Client.Chat: local quota checks, token estimates and waits are inputs or absent; an error of any other kind passes through like an API status error.
- OrderBook.BookCache.HandleBookTicker: prices that do not parse as decimals, which raise an error, and the freshness timestamps are left out.
- BacktestLedger.Run: the equity figure adds full notional to margin-based cash, so nothing is claimed about it beyond the drawdown of the curve; Sharpe ratio, averages and annualised return are left out.
- Indicators other than ADX, signal thresholds, and the side derivation of the validator: short case splits.
