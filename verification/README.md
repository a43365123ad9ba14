# Verification model of the trading bot's exits, indexes and arbitrage

A Dafny 4.11 model of the stateful core of the bot, with proofs. `dafny verify dfyconfig.toml` checks all of it.
Floats are reals, Python integers are `int`, and what the program awaits (prices, balances, adapters, RPC nodes,
clocks) is an input of the model, quantified over. Objects that the program updates in place are classes whose
methods are proved against functions; what holds over whole runs is proved about those functions.

| file | models |
|---|---|
| Ledger.dfy | a position's stored accounting, the confirmed sell, the three copies of wallet reconciliation |
| ExitLadder.dfy | risk settings, the fixed order of exit rules, reason texts, the combined stop level |
| ExitActions.dfy, ExitRuns.dfy | one tick and one manual close as functions of the freshly read row; whole runs of them |
| ExitOrder.dfy | which exit a tick attempts and what it writes, by prices, volumes, ages and precedence; the pause after a failed one |
| SmoothRuns.dfy | runs in which every submitted sell succeeds, and for which settings floor and trailing then matter |
| StopRatchet.dfy | for which settings the combined stop level ratchets, and that it then never loosens in a run |
| PositionManager.dfy | the manager object: exit lock, retry pauses, stored rows, updated step by step |
| ExitInterleaving.dfy | ticks and manual closes interleaving at every await, each on its own copy of the row |
| PonsCurve.dfy | Pons bonding-curve quotes and limits in exact integers |
| LogReaders.dfy, LaunchPolling.dfy, HolderIndex.dfy | block-range log readers, launch pollers, incremental holder index |
| FeeModel.dfy, LiveExecutor.dfy | arbitrage cost arithmetic, discovery verdict, the gate in front of a bundle |
| TraderBrain.dfy, EntryBounds.dfy | the snapshot window and the entry classifier; the classifier by bounds on single caps and readings |
| BoundedMemory.dfy | mint-deduplicating queue, signature memory, drop-oldest queue |
| PumpFunSell.dfy | the Pump.fun sell retry machine and its raw amounts |
| Outcomes.dfy, Integers.dfy, Reals.dfy | shared values and helpers |

## What the proofs found

Each item is a theorem that says exactly when the program does what is expected of it, or gives the run where it does not.

- The basis dropped with closing dust is proportional exactly when at least a millionth of a percent was left; below
  that the clamped divisor drops nearly all of it (`Ledger.DustDropped`).
- In every run each hard-stop sell follows a noted defensive sell exactly when the hard stop is set at least as far
  down as the defensive one, or beyond a total loss (`ExitRuns.HardStopNeedsDefensive`).
- The row records one defensive sell at most exactly when none, or one and no noted one, met an exception behind the
  row update; two are recorded in the run of `ExitRuns.DefensiveRepeatsAfterError` (`ExitRuns.DefensiveSellsCounted`).
- For all settings the combined stop level ratchets exactly when it does not fall at seven thresholds, a test on the
  settings; the defaults pass (`StopRatchet.RatchetsExactlyWhenStagesHandOver`).
- For all settings, when every submitted sell succeeds, floor and trailing exits are never attempted exactly when the
  settings keep them out of reach, again decided at the thresholds; the defaults do, so in such runs the take-profit at
  six percent makes both idle (`SmoothRuns.FloorIsNeverAttemptedIff`, `SmoothRuns.OutOfReachAtThresholds`).
- The exit lock is exclusive under every interleaving, but it does not keep copies current. A write-back keeps the basis
  exactly when its copy holds the stored basis; where every percent gone was a token sold it keeps the token bound
  exactly when a closing sell asks for no more than the row holds, or a partial one counts from no more. In paper mode a
  tick's defensive sell of 80 percent and a manual close of a copy fetched before it hand over 180 of 100 tokens
  (`ExitInterleaving.CommitConservesIffFresh`, `CommitKeepsTokensIff`, `StaleCopiesOversell`). Over whole interleavings
  every basis is conserved throughout exactly when every sell is written from a copy with the stored basis
  (`ExitInterleaving.BasisSurvivesIff`). Then profit, percentage and tokens survive as well while no reconciliation with
  an older copy raises the stored percentage, others' reconciliations during a sell included
  (`ExitInterleaving.InterleavedLedgersBalance`).
- Even with current copies a row can end closed with tokens left: a partial sell writes percentage and basis but not the
  status. It happens exactly when a remaining percentage is written to a row closed meanwhile, as when a manual close
  finds the wallet empty during a tick's partial sell (`ExitInterleaving.ClosedRowsStayEmptyIff`,
  `CloseDuringSellLeavesLeftover`).
- No reason the manager gives is on the Pump.fun adapter's protected list, so its stops may widen slippage on retries,
  although comments in `manager.py` and `pumpfun_live.py` say stop exits keep their ceiling; and of its reasons only
  three start the pause after a failed sell (`PumpFunSell.NoManagerExitIsProtected`, `ExitLadder.ReasonsThatPause`).
- No Pump.fun retry narrows the slippage exactly for a base of at most 1000 bps (`PumpFunSell.SlippageSchedule`).
- Splitting a Pons buy beats the quote for the total exactly when one part sells out the sellable amount and a later
  part still yields tokens, since a sellable amount of zero reads as "no limit"; it never beats the unclamped swap
  (`PonsCurve.SplitBuyBeatsWholeIff`). A slippage limit protects nothing exactly when the quote is too small for its
  allowance (`PonsCurve.MinOutBounds`).
- A Doppler poller's callers receive every wanted launch exactly when none lies in a gap, which only excess lag of the
  head leaves, or shares a window with a log that cannot be decoded: the watermark has moved by then
  (`LaunchPolling.NothingIsMissed`, `LaunchPolling.GapOnlyFromLag`).
- The trader brain enters on a falling snapshot exactly when some dip since the last breakout was at least 2.5 percent
  deeper, demand meets the reclaim floors, the cap is in the pullback band and at least 85 percent of the prior high:
  only a breakout forgets an old low, a recovery to the peak does not (`TraderBrain.FallingEntryNeedsDeeperDip`,
  `TraderBrain.PullbackLowIsLeastDip`, and the run of `TraderBrain.EntryWhileFalling`).
- A Pons launch poll reads stepped-over blocks again exactly when the head has not advanced; a Doppler poll never does
  (`LaunchPolling.PonsRereadsExactlyWithoutProgress`, `LaunchPolling.WindowsNeverOverlap`).
- An arbitrage attempt fails its final profit gate exactly when the rebuilt sell's priority fee exceeds its estimate by
  more than the room left above the planned tip, none for a tip clamped to what is affordable; a smaller tip might still
  pay then, but is not tried (`LiveExecutor.FinalGateIff`).
- The market tip survives every pair of capped leg fees exactly when the priority budget covers both caps
  (`LiveExecutor.BudgetKeepsMarketTip`).

The module docstring of `manager.py` lists stop-loss, trailing and multi-level take-profit rules, and its tests expect
the reasons "stop loss hit" and "trailing stop hit"; the code runs the adaptive ladder and one fixed take-profit level.
The model follows the code.

## Model

| member | source | states |
|---|---|---|
| Ledger.CopiesAgree | backend/app/positions/manager.py:340-359 | the Solana, Pons and Doppler copies of reconciliation reach the same verdict on every input, the Pons copy except exactly for a tokenless live position with a negative balance |
| Ledger.ReconcileBounds | backend/app/positions/manager.py:429-568 | with a balance in hand, reconciling a live position never raises the tracked percentage, leaves at most 0.5% of the tracked amount above the wallet, closes only on an empty wallet, does nothing when the wallet covers the position, and is idempotent |
| Ledger.ExactVerdict | backend/app/connectors/doppler_position_patch.py:72-141 | every source's verdict in terms of tracked tokens: keep within tolerance, close on zero, else exactly the wallet's share |
| Ledger.NoWalletNoChange | backend/app/positions/manager.py:322-425 | paper positions, BNB Chain positions and failed lookups are never changed by reconciliation |
| Ledger.PortionBounds | backend/app/positions/manager.py:1078-1086 | a sell is charged between nothing and the whole remaining basis, strictly less when something is left |
| Ledger.UnbackedSellsChargeInvestment | backend/app/positions/manager.py:1080-1086 | without a stored basis, over every run the charges relate to the stored investment as the tokens sold to all tokens |
| Ledger.Conservation | backend/app/positions/manager.py:1078-1287 | over every run of sells and reconciliations: charged plus remaining plus dropped basis is the opening basis, profit is proceeds less charged basis less fees, percentage never rises, closed means empty, tokens sold stay within the percentage gone |
| Ledger.ProfitIsCashFlow | backend/app/scanners/scanner.py:2514-2534 | with the buy's fee inside the opening basis and as the opening fees, the stored profit after any run is proceeds less the cost of the tokens less all fees, plus the basis not charged yet or dropped |
| Ledger.OnePriceOneProfit | backend/app/positions/manager.py:1049-1109 | however a position is sold off at one price, executed, quoted or triggering, without cash figures from the chain: profit is that price's gain on the basis charged, proceeds relate to that basis as the price to the entry price, and no fee is booked |
| Ledger.ChainFiguresAreBooked | backend/app/positions/manager.py:1102-1108 | over every run with the chain's figures: proceeds rise by the cash received, fees by the fees paid, profit is that cash less those fees less the basis charged |
| Ledger.DustDropped | backend/app/positions/manager.py:1080-1086 | basis dropped at the closing sell is proportional to the dust exactly from a millionth of a percent up |
| Ledger.DensityNeverFalls | backend/app/positions/manager.py:1080-1086 | with reconciliations interleaved, basis per remaining percent never falls while the position is open |
| Ledger.AllocationIsPathIndependent | backend/app/positions/manager.py:163-187 | any two splits of the same total percentage, at any prices, charge the same basis and leave the same row |
| ExitLadder.ReasonsThatPause | backend/app/positions/manager.py:1143-1161 | whatever numbers are formatted in, only time, volume and take-profit exits start the 60-second pause |
| ExitLadder.StopLevelIsExact | backend/app/positions/manager.py:1731-1828 | a tick that gets past time exit and stops attempts a full floor or trailing exit exactly when the price is at or below the greater of the two levels |
| StopRatchet.ActiveLevelIsExact | backend/app/positions/manager.py:1807-1828 | a trailing percentage above 100 counts as none: at non-negative prices the same prices stop |
| StopRatchet.RatchetsExactlyWhenStagesHandOver | backend/app/positions/manager.py:1753-1828 | for all settings: the level never falls as the peak rises, for any entry and peaks, exactly when it does not fall at the seven gains where floor or trailing change |
| StopRatchet.DefaultsHandOver | backend/app/config/settings.py:278-291 | the default settings pass that test |
| StopRatchet.StopNeverLoosens | backend/app/positions/manager.py:1731-1828 | with such settings the price at which floor and trailing sell everything never falls between any two moments of any run |
| PositionManager.Manager.TryBeginExit | backend/app/positions/manager.py:574-595 | claims the position exactly when nobody holds it |
| PositionManager.Manager.FinishExit | backend/app/positions/manager.py:597-605 | releases that position and no other |
| PositionManager.Manager.AutomatedExitOnCooldown | backend/app/positions/manager.py:607-620 | paused exactly before the recorded end, and an expired pause is forgotten |
| PositionManager.Manager.ReconcileLivePosition | backend/app/positions/manager.py:318-568 | stores exactly the reconciled row of that position and reports exactly a verdict other than "keep" |
| PositionManager.Manager.RecordSell | backend/app/positions/manager.py:1192-1287 | stores exactly the book after the confirmed sell and ends the pause |
| PositionManager.Manager.ClosePosition | backend/app/positions/manager.py:795-1343 | on every path, exceptions included, row, pause, status and submitted sell are those of the close, and the lock set is as before; a loser changes nothing |
| PositionManager.Manager.EvaluateExits | backend/app/positions/manager.py:1603-2110 | the step-by-step rules act as the ladder decides and leave exactly its row |
| PositionManager.Manager.CheckPosition | backend/app/positions/manager.py:1349-2110 | a tick leaves exactly the row, pause and submitted sell of the tick function |
| PositionManager.Manager.ClosePositionManually | backend/app/positions/manager.py:2116-2232 | likewise for a manual close, which does nothing to a position that is not open |
| ExitRuns.RunConserves | backend/app/positions/manager.py:795-1343 | over every run of ticks and manual closes the stored row balances, and all recorded sells together never exceed the position's tokens |
| ExitRuns.AttemptFacts | backend/app/positions/manager.py:873-908 | how any submitted sell was sized, that a hard stop needs a loss at its setting and, unless it is set nearer than the defensive stop, the defensive flag, that a defensive sell is the smaller of its setting and the remainder, when the flag moves, and that only an exception leaves a recorded sell unacknowledged |
| ExitRuns.TickRestraint | backend/app/positions/manager.py:1355-1673 | no sell while paused, disabled or locked out, and only the time exit on a simulated price |
| ExitRuns.DueExitsAreAttempted | backend/app/positions/manager.py:1603-2110 | a tick at the age limit, or with a real price at the hard stop, at the stop level, at the take-profit gain or with a real volume far enough below its peak, hands over a sell of all that is left, or the defensive part, when the lock is free, an adapter can be had and, for the exits that reconcile again, nothing was sold outside meanwhile |
| ExitRuns.FailedSellsChangeNothing | backend/app/positions/manager.py:1126-1192 | an unrecorded sell leaves basis, totals and status alone but for what reconciliation wrote; in paper mode it leaves the whole book |
| ExitOrder.StagesAreExact | backend/app/positions/manager.py:1731-1802 | floor and trailing distance are those of the last stage whose gain was reached |
| ExitOrder.MostUrgentExitIsAttempted | backend/app/positions/manager.py:1603-2110 | for every reason: a tick hands over a sell for it exactly when it reaches the rules with a free lock and an adapter and that exit is called for, by price, volume or age, while no more urgent one is; and of what is left after reconciling, or the defensive part |
| ExitOrder.TimeExitIff | backend/app/positions/manager.py:1603-1652 | the time exit is attempted exactly when the limit is set and reached, at simulated prices too |
| ExitOrder.SoldOutsideIff | backend/app/positions/manager.py:1382-1395 | a look at the wallet ends the exit exactly when at least half a percent of the tracked tokens is missing and at most a ten-thousandth of the position is there |
| ExitOrder.RecordedTickSells | backend/app/positions/manager.py:1126-1287 | a recorded sell is written on the reconciled row at the price of the tick, and an unrecorded one leaves that row |
| ExitOrder.UnsoldTickReconciles | backend/app/positions/manager.py:1355-1400 | without a sell a tick writes exactly what its looks at the wallet found, and nothing while paused |
| ExitOrder.ProfitMarkIff | backend/app/positions/manager.py:1930-2110 | the take-profit level is marked exactly when its sell was acknowledged |
| ExitOrder.ManualCloseIff | backend/app/positions/manager.py:2116-2232 | a manual close hands over all that two looks leave, exactly when they leave something, the lock is free and an adapter can be had, and ends a pause exactly when its sell was confirmed that far |
| ExitOrder.RefusalPausesSixtySeconds | backend/app/positions/manager.py:1143-1161 | after a refused time, volume or take-profit exit ticks are skipped whole for exactly 60 seconds |
| ExitOrder.OnlyRefusalsPause | backend/app/positions/manager.py:1143-1199 | nothing else leaves a pause behind a tick |
| ExitOrder.VolumePeakIsHighestRealVolume | backend/app/positions/manager.py:1535-1564 | after any run the stored volume peak is the greatest of the opening peak and the real volumes of ticks that reached the rules |
| ExitRuns.HardStopNeedsDefensive | backend/app/positions/manager.py:1686-1729 | for all settings: in every run without negative prices each hard-stop sell comes after an acknowledged defensive sell, exactly when the hard stop is at least as far down or beyond 100% |
| ExitRuns.NearerHardStopComesFirst | backend/app/positions/manager.py:1686-1729 | for all settings with a nearer hard stop of at most 100%, a run whose first sell is a hard stop |
| ExitRuns.DefensiveSellsCounted | backend/app/positions/manager.py:1699-1712 | for all settings and runs, recorded defensive sells are the noted one, if any, and those whose caller met an exception; when that makes more than one; none without such an exception |
| ExitRuns.DefensiveRepeatsAfterError | backend/app/positions/manager.py:1699-1712 | a run with two recorded defensive sells after an exception behind the row update |
| ExitRuns.PeakIsHighestRealPrice | backend/app/positions/manager.py:1535-1564 | after any run the stored peak is the greatest of the opening peak and the real prices of ticks that reached the update |
| ExitRuns.ProfitIsMarkedWhenEmpty | backend/app/positions/manager.py:1897-2110 | in every run the take-profit level is recorded only on an emptied position |
| SmoothRuns.SmoothRunsStayCalm | backend/app/positions/manager.py:1897-2110 | for all settings: when every submitted sell succeeds, no exit loses the lock and reconciliation is idle, no open position keeps a peak of +6% or more |
| SmoothRuns.FloorIsNeverAttemptedIff | backend/app/positions/manager.py:1686-1828 | for all settings: floor and trailing are never attempted in any such run without negative prices, from any open row with a lower peak, exactly when a fresh peak from +6% clears both and below it the hard stop forestalls every floor |
| SmoothRuns.OutOfReachAtThresholds | backend/app/positions/manager.py:1753-1828 | that holds exactly when it does at +6% and at the seven gains where floor or trailing change |
| SmoothRuns.SmoothRunsNeverReachTheFloor | backend/app/config/settings.py:278-291 | with the default settings floor and trailing are never attempted in such a run, and no open position keeps a peak of +6% or more |
| ExitInterleaving.MutualExclusion | backend/app/positions/manager.py:821-1343 | under every interleaving at most one task per position is between taking and releasing the lock, and the lock set holds exactly those positions |
| ExitInterleaving.OnlyTheHolderReleases | backend/app/positions/manager.py:574-605 | only the holding task's release unlocks a position, and a losing task changes neither lock nor rows |
| ExitInterleaving.HolderLeaves | backend/app/positions/manager.py:821-1343 | from wherever it is under the lock, the holder's giving up or writing and its `finally` free the position |
| ExitInterleaving.CommitConservesIffFresh | backend/app/positions/manager.py:1207-1287 | a write-back conserves the basis exactly when its copy holds the stored basis |
| ExitInterleaving.CommitKeepsTokensIff | backend/app/positions/manager.py:1207-1287 | where every percent gone was a token sold, a write-back keeps sold tokens within the percentage gone exactly when a closing sell asks for at most the row's percentage, or a partial one counts from at most it |
| ExitInterleaving.BasisSurvivesIff | backend/app/positions/manager.py:821-1343 | over every interleaving, undisciplined ones included: charged, left and dropped basis add up to the opening basis of every position throughout exactly when every sell is written from a copy holding the stored basis |
| ExitInterleaving.InterleavedLedgersBalance | backend/app/positions/manager.py:821-1343 | over every interleaving in which sells are written so, and no reconciliation with an older copy raises the stored percentage, basis, profit, percentage and tokens of every position stay accounted for, also when others reconcile during a sell |
| ExitInterleaving.ClosedRowsStayEmptyIff | backend/app/positions/manager.py:1226-1286 | throughout such a run closed rows are empty exactly when no remaining percentage is written to a row closed after its copy was fetched |
| ExitInterleaving.CloseDuringSellLeavesLeftover | backend/app/positions/manager.py:1277-1286 | for every live position and partial sell, a disciplined run that leaves the row closed with the rest of the percentage in it |
| ExitInterleaving.StartIsConsistent | backend/app/positions/manager.py:84-96 | freshly opened positions with an empty lock set meet the premises of both theorems |
| ExitInterleaving.StaleCopiesOversell | backend/app/positions/manager.py:2116-2232 | for every paper position, a manual close of a copy fetched before a tick's partial sell: together they hand over all tokens and the tick's part once more, and the row is closed |
| PonsCurve.ProductNeverFalls | backend/app/execution/pons_live.py:26-27 | a swap step never lowers the product of reserves, nor takes the whole output reserve |
| PonsCurve.OutIsTheLargest | backend/app/execution/pons_live.py:26-27 | an output keeps the product of reserves exactly up to the quoted one |
| PonsCurve.FeesAreExact | backend/app/execution/pons_live.py:36-50 | a net input is the largest amount within what the fixed fees and the snipe tax leave, of which the snipe tax cannot take the last one percent; a sale's payout the largest within what the fixed fees leave |
| PonsCurve.QuotedTokens | backend/app/execution/pons_live.py:30-42 | a token amount is within a quoted buy exactly when the pool's product, at the input less that share, and a positive sellable amount allow it |
| PonsCurve.OutIsMonotone | backend/app/execution/pons_live.py:26-27 | more in, at least as much out |
| PonsCurve.SplitNeverBeatsWhole | backend/app/execution/pons_live.py:26-27 | any sequence of consecutive parts on updated reserves yields at most the single swap |
| PonsCurve.SplitBuyBeatsWholeIff | backend/app/execution/pons_live.py:30-42 | buys one after the other, with all fees floored and the clamp cut per part, never yield more than the unclamped swap of the total, and more than its quote exactly when a part sells out the sellable amount and a later one still yields |
| PonsCurve.ExhaustedClampLiftsTheLimit | backend/app/execution/pons_live.py:40-41 | such a split: 32 tokens in two parts where 10 are quoted |
| PonsCurve.NoTradeSequenceProfits | backend/app/execution/pons_live.py:30-50 | no sequence of quoted buys and sells, whatever fees, snipe taxes and clamps, returns more quote than was spent |
| PonsCurve.RoundTripPaysBothFees | backend/app/execution/pons_live.py:30-50 | selling the bought tokens straight back returns at most the net input less the sell fees |
| PonsCurve.SnipeTaxLeavesOnePercent | backend/app/execution/pons_live.py:36-38 | with fixed fees up to 9900 bps the net input is at least one percent of the input |
| PonsCurve.LimitIsTheLargest | backend/app/execution/pons_live.py:117-138 | an order is refused exactly without a positive quote; its limit is the largest amount within the quote less a slippage of 0 to 30% |
| PonsCurve.MinOutBounds | backend/app/execution/pons_live.py:117-138 | the order limit lies between 70% of the quote and the quote, and is zero exactly for too small a quote |
| PonsCurve.OverchargedQuotes | backend/app/execution/pons_live.py:30-42 | with fees above the whole amount an order goes out exactly when the negative net input outweighs the quote reserve |
| LogReaders.GetLogsChunked | backend/app/connectors/pons.py:88-112 | for every failure pattern it ends within a query bound and returns each block's logs once and in order, or a single block failed three times running |
| LogReaders.BisectLogs | backend/app/connectors/doppler.py:131-157 | the same for the bisecting recursion |
| LogReaders.EventSource.GetWithRetries | backend/app/connectors/pons.py:97-106 | three tries for one range, complete or all failed |
| LaunchPolling.DopplerClient.PollNewLaunches | backend/app/connectors/doppler.py:159-270 | a failed read moves nothing; a successful one steps past its window and delivers the window's launches of the wanted initializer, or none of them when one of its logs cannot be decoded |
| LaunchPolling.WindowsNeverOverlap | backend/app/connectors/doppler.py:159-174 | over every run, with failures and any heads, windows increase without overlap |
| LaunchPolling.FirstDopplerWindow | backend/app/connectors/doppler.py:162-166 | without a watermark a poll starts at the configured block or ten behind the head, within the maximum |
| LaunchPolling.GapOnlyFromLag | backend/app/connectors/doppler.py:163-166 | over every run the watermark moves by the blocks read plus exactly the excess of the head's lead over the maximum |
| LaunchPolling.NothingIsMissed | backend/app/connectors/doppler.py:159-270 | over every run each wanted launch from the watermark on is received once and in order, exactly when none lies in a gap or beside an undecodable log |
| LaunchPolling.PonsClient.PollNewLaunches | backend/app/connectors/pons.py:114-149 | delivers exactly its range, nothing on the first poll or when a log cannot be decoded; a failed read changes nothing |
| LaunchPolling.PonsRereadsExactlyWithoutProgress | backend/app/connectors/pons.py:117-120 | a Pons poll goes back behind its watermark exactly when the head has not passed it |
| LaunchPolling.FirstPonsWindow | backend/app/connectors/pons.py:117-120 | likewise for Pons, two behind the head |
| HolderIndex.Index.UpdateHolderSnapshot | backend/app/connectors/pons.py:151-206 | after any calls with one launch block, whichever queries fail, balances and volume are one full replay up to the last block; only two successful queries advance it, other tokens are untouched |
| HolderIndex.ReplayInto | backend/app/connectors/pons.py:181-190 | the loop over fetched transfers applies them all, in order |
| HolderIndex.BalanceIsReceivedLessSent | backend/app/connectors/pons.py:183-190 | each balance is what the holder received less what it sent |
| HolderIndex.SupplyIsMintedLessBurned | backend/app/connectors/pons.py:181-190 | the balances sum to minted less burned |
| FeeModel.AffordableTipIsTheLargest | backend/app/arbitrage/fee_model.py:66-81 | a tip leaves a positive net profit exactly up to the affordable tip |
| FeeModel.PriorityBudgetIsTheLargest | backend/app/arbitrage/fee_model.py:84-104 | a total priority fee leaves a positive net beside the tip exactly up to the budget |
| FeeModel.DiscoveryVersusFinalGate | backend/app/arbitrage/engine.py:82-138 | when discovery says executable, on guaranteed minimum outputs where quotes name them; and then the same quotes pass the final gate exactly while actual costs exceed estimates by less than discovery's net |
| LiveExecutor.Executor.DynamicTip | backend/app/arbitrage/live_executor.py:182-205 | a recent cached tip is repeated, else the scaled floor or the fallback is returned and cached |
| LiveExecutor.Executor.ReconcileLandedBundle | backend/app/arbitrage/live_executor.py:241-258 | settled exactly with no bundle error, a confirmation and two transactions without error |
| LiveExecutor.Executor.Execute | backend/app/arbitrage/live_executor.py:260-370 | when exactly a bundle is sent, and which first obstacle each refusal names; every bundle sent is profitable at its final fees, tipped with the lesser of market and affordable tip, covered by balance and reserve, within the cap, sized leg on leg and simulated; success means clean settlement; an attempt whose calls answer within plan is sent at the market tip |
| LiveExecutor.Executor.BuildAndSend | backend/app/arbitrage/live_executor.py:296-370 | the same for the part from the planned tip to settlement |
| LiveExecutor.FinalGateIff | backend/app/arbitrage/live_executor.py:321-344 | after a plan the final net is positive exactly while the sell's priority fee rises by at most the affordable less the planned tip, and no tip pays exactly when it rises by more than the affordable less the minimum tip |
| LiveExecutor.LamportsAreTheLargest | backend/app/arbitrage/live_executor.py:268-272 | the input is the amount in whole lamports, rounded down |
| LiveExecutor.CapIsTheLargest | backend/app/arbitrage/live_executor.py:302-303 | a leg's cap is the largest fee within the setting, a million and half the budget, but a thousand at least |
| LiveExecutor.BudgetKeepsMarketTip | backend/app/arbitrage/live_executor.py:299-320 | a budget of 2000 covers both caps, and the market tip survives all capped fees exactly when the budget covers both caps |
| TraderBrain.ClassifyTwice | backend/app/scanners/trader_brain.py:166-361 | classifying again gives the same verdict and leaves the chart as it is |
| TraderBrain.EntryNeedsDemand | backend/app/scanners/trader_brain.py:166-320 | an entry has three observations, no exhaustion, pressure 0.58, ratio 1.20 and velocity 0.004; outside reclaims also no step above 18% |
| TraderBrain.DemandNeverHurts | backend/app/scanners/trader_brain.py:166-320 | more pressure, ratio or velocity in the last reading never turns an entry into a wait |
| EntryBounds.EntryIff | backend/app/scanners/trader_brain.py:166-306 | every chart of three snapshots or more is entered exactly when it is not overextended and, by bounds on single caps and readings, reclaims inside the pullback band, or outside it breaks out or keeps climbing; and the phase is that |
| EntryBounds.WaitingPhaseIff | backend/app/scanners/trader_brain.py:205-361 | in which phase it waits otherwise |
| EntryBounds.WarmsUpIff | backend/app/scanners/trader_brain.py:166-174 | fewer than three snapshots never decide |
| TraderBrain.PullbackLowIsLeastDip | backend/app/scanners/trader_brain.py:227-255 | after every run of accepted snapshots the low a reclaim is measured from is the least cap of the snapshots judged a pullback or reclaim since the last breakout, or unset without one |
| TraderBrain.FallingEntryIff | backend/app/scanners/trader_brain.py:227-247 | a snapshot below its predecessor is entered only as a reclaim, exactly under bounds on demand, peak, prior high and the stored low |
| TraderBrain.FallingEntryNeedsDeeperDip | backend/app/scanners/trader_brain.py:227-255 | over every run, such an entry needs, beside those bounds, exactly a dip since the last breakout at least 2.5% deeper |
| TraderBrain.EntryWhileFalling | backend/app/scanners/trader_brain.py:124-255 | a run of five snapshots whose last is entered while the cap falls by 4.7% in one step |
| TraderBrain.Slide | backend/app/scanners/trader_brain.py:151-155 | the deque becomes the longest suffix of the history with at most 64 entries none older than 180 seconds |
| TraderBrain.BrainState.Observe | backend/app/scanners/trader_brain.py:124-164 | keeps that window, a peak above every accepted snapshot, the chart these snapshots lead to and its verdict |
| TraderBrain.BrainState.EvaluateEntry | backend/app/scanners/trader_brain.py:379-393 | repeats the verdict of the last accepted snapshot and changes nothing |
| BoundedMemory.MintDedupQueue.PutNowait | backend/app/scanners/pumpfun_resource_guard.py:42-60 | a queued mint changes nothing; otherwise the event is last and only a full queue loses exactly its oldest; index and buffer stay in step and nothing is lost or overtaken |
| BoundedMemory.MintDedupQueue.GetNowait | backend/app/scanners/pumpfun_resource_guard.py:62-67 | takes exactly the oldest event, with the same invariant |
| BoundedMemory.SignatureMemory.Remember | backend/app/scanners/preconf_fastpath.py:49-57 | refuses exactly the last 10000 accepted signatures |
| BoundedMemory.FastQueue.QueueNowait | backend/app/scanners/preconf_fastpath.py:138-149 | keeps the newest items up to the bound |
| PumpFunSell.SlippageIsTheLargest | backend/app/execution/pumpfun_live.py:189-203 | each attempt's slippage is the largest within the base, 5/2 of it and 1000 bps, or 10/3 of it and 1500 bps |
| PumpFunSell.SlippageSchedule | backend/app/execution/pumpfun_live.py:189-203 | never above the base or 1500 bps, and narrowed by no retry exactly for a base up to 1000 |
| PumpFunSell.NoManagerExitIsProtected | backend/app/execution/pumpfun_live.py:745-748 | no reason text of the manager is on the protected list |
| PumpFunSell.TryOnce | backend/app/execution/pumpfun_live.py:765-1145 | one attempt's path, transaction and decision to retry |
| PumpFunSell.Sell | backend/app/execution/pumpfun_live.py:601-1176 | builds exactly the transactions of the retry machine and reports success exactly when the last one confirmed |
| PumpFunSell.AttemptsAreBounded | backend/app/execution/pumpfun_live.py:745-1176 | at most three transactions of one raw amount, at most the last confirmed, slippage bounded or protected, a forced Jupiter path never left |
| PumpFunSell.UnexpectedErrorsEndTheSell | backend/app/execution/pumpfun_live.py:1146-1165 | an error on no list ends the sell undelivered |
| PumpFunSell.RetriesDeliver | backend/app/execution/pumpfun_live.py:1038-1145 | whatever happens outside, a sell is delivered exactly when some attempt within the limit goes through and each one before it failed with an error that is retried |
| PumpFunSell.EachAttemptBuilds | backend/app/execution/pumpfun_live.py:765-1145 | when every probe answers, such a sell builds one transaction per attempt, each on the path forced by the errors before it |
| PumpFunSell.PathFollowsProbe | backend/app/execution/pumpfun_live.py:765-930 | when probes answer, the i-th transaction goes through Jupiter exactly when that is forced by then or its probe found the token migrated, at its own attempt's slippage |
| PumpFunSell.RawIsTheLargest | backend/app/execution/pumpfun_live.py:206-251 | the raw amount is the largest whole number of base units within the tokens, and refused exactly when that is none or the decimals are not 0 to 18 |
| PumpFunSell.PowersOfTen | backend/app/execution/pumpfun_live.py:206-251 | a base unit is a power of ten |
| PumpFunSell.RawUnitsStayWithinPosition | backend/app/execution/pumpfun_live.py:206-251 | over every run of a position the separately floored raw amounts of its recorded sells never exceed the position |

## Left out

- Floating point: amounts, prices and percentages are reals, so rounding is not modelled; neither is the 28-digit limit of Python decimals.
- Ledger.Conservation: needs a positive opening basis, because without one the program charges sells from `amount_sol_invested`, which no ledger column holds.
- ExitRuns.RunConserves: runs act on freshly read rows; copies that go stale are the subject of the interleaving model, which gives the run where the token bound fails.
- SmoothRuns.FloorIsNeverAttemptedIff: quantifies over runs without negative prices; peaks of a calm row may lie below the entry price, though `create_position` starts them there.
- ExitInterleaving.InterleavedLedgersBalance: promises the ledger clauses but not that closed rows are empty, whose exact condition is a theorem of its own; one move is one stretch between awaits and covers the book columns; peaks and flags are not part of it.
- LogReaders.GetLogsChunked: promises the result, the cause of a failure and a bound on the queries, not by how much a failing chunk shrinks.
- PumpFunSell.Sell: an exception counts as a record of which of the adapter's text lists it matches; the substring tests themselves are not modelled.
- PumpFunSell.RawUnitsStayWithinPosition: counts recorded sells; a sell that landed but was lost to an exception before the row was written is sized again by a later tick.
- HolderIndex.Index.UpdateHolderSnapshot: the launch block of a token must not change between calls; addresses are taken as lower case.
- LiveExecutor.Executor.Execute: the two signatures of a bundle are not required to differ, as in the program.
- LaunchPolling.DopplerClient.PollNewLaunches: which logs raise while being decoded is an input; the transaction lookup inside the loop catches its own errors.
- TraderBrain.BrainState.Observe: for Smart Pump.fun tokens; the display numbers in the result are not modelled.
- Paper balance credits, `total_network_fee_usd` (moves with the fees), close reasons, timestamps and order rows: written but never read by a decision.
- A second exception while reporting a failed sell: it ends the tick after all writes.
- An exception of reconciliation's own row write: the row stays as it is and nothing is sold, as in the modelled tick whose balance lookup fails and whose trading is off, or whose adapter cannot be had.
- HTTP, RPC and websocket clients, signing, ABI encoding, encryption and the database: their answers are inputs.
- That the Pons curve contract adds the net input to its reserves and takes what it sells from the sellable amount is an assumption; the contract is not part of this model.
- Telegram, web and logging code, hard filters, scorers and the mock feed: no state machine, threshold tests only.
- The scanner, the on-chain watcher and the installers that patch methods at import time.
