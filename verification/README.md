# LTS trading-cycle engine, modelled in Dafny

This project models the deterministic core of LTS, a plugin-based trading
system. It covers:

- **Simulation broker** (`SimLedger`, `SimBroker`, `SimRun`): the cost
  helpers and the table of open trades, keyed by id and kept in insertion
  order; open, close and modify; the per-bar stop-loss / take-profit `tick`;
  `run_simulation` with its end-of-data liquidation; and the run summary.
  All of it uses exact cash and P&L accounting over `real`.
- **Decision policy** (`Heuristic`, `Heartbeat`): the heuristic strategy's
  entry signal with target and stop, the risk/reward-interpolated position
  size, and the early-exit variants A–G. The heartbeat adds the glue that
  chooses the reference price and counts signals and orders per portfolio.
- **Cycle schedulers** (`Pipeline`, `CoreLoop`, `Heartbeat`): the latency
  gate, per-asset and per-portfolio failure isolation, the cycle counters
  and statistics, and the order and position rows saved from a broker
  result, including the realized-P&L formula. Each is a fold over abstract
  portfolio, asset and plugin-outcome records.
- **Supporting logic**:
  - `Oanda`: the OANDA broker's retry/backoff loop and its order bodies and
    dispatch.
  - `CsvData`, `CsvPredictor`, `CsvFeeder`: the CSV look-ahead predictor and
    the CSV feeder as index arithmetic.
  - `PredictionClient`: the prediction client's CSV and partial-failure
    paths.
  - `RateLimiter`: the sliding-window rate limiter.
  - `PluginBase`: plugin parameter merging.
  - `BacktraderMetrics`: the backtrader broker's performance metrics and
    prediction-source handling.

Shared helpers:

- `Wrappers`: Option and Result.
- `Sums`: sums over sequences, accumulated left to right.
- `Counting`: the number of entries passing a test, as the size of the set of their positions.
- `PySlice`: Python slice bounds, including negative indices.
- `Decimal`: `str(int)` and its inverse, used for the simulation broker's
  trade ids.

Exceptions the source raises and catches become `Result` failures carrying
the message text. Wherever the source reads the clock, `now` is a parameter.
Timestamps are real seconds. Every call into a plugin, an endpoint or the
prediction service becomes an outcome parameter: a `Result`, or a function
from the attempt number to an outcome. A pandas nearest-timestamp lookup
becomes an index parameter constrained by `CsvData.NearestIndex`. That
index lies in `[0, len)`, or is -1 for empty data.

Behaviour of the code worth knowing, which the model keeps:

- `_save_trading_result` lets an already closed position be closed again.
  It overwrites the close price and the realized P&L; the code does not
  reject this as an error.
- `get_data(0)` returns every row, not none, because `iloc[-0:]` is
  `iloc[0:]`.
- `_count_active_positions` uses a class-level `positions` list in
  preference to the per-feed dictionary whenever such a list exists.
- `compute_signal` accepts hourly predictions but never reads them.
- `_process_portfolio` in the heartbeat counts an asset whose signal
  computation raises as neither a signal nor an error.

## Model

| member | source | states |
|---|---|---|
| SimLedger.IndexOf | plugins_broker/backtrader_simulation_broker.py:228 | the position of a key is the first, and only, entry with that id; absent exactly when no entry has it |
| SimLedger.Find | plugins_broker/backtrader_simulation_broker.py:228 | `dict.get`: found exactly when some open trade has the id, and then it is that trade |
| SimLedger.Keys | plugins_broker/backtrader_simulation_broker.py:293 | the snapshot of keys lists every open trade's id, in insertion order |
| SimLedger.Remove | plugins_broker/backtrader_simulation_broker.py:181 | `pop`: the key disappears, every other key keeps its trade, one entry fewer when it was present, nothing changes otherwise |
| SimLedger.FindRemoved | plugins_broker/backtrader_simulation_broker.py:181 | removing entry `k` keeps ids distinct, loses exactly that key and keeps every other key's trade |
| SimLedger.FindRemovedOther | plugins_broker/backtrader_simulation_broker.py:181 | a key other than the removed one finds the same trade before and after the removal |
| SimLedger.Put | plugins_broker/backtrader_simulation_broker.py:173 | `open[id] = t`: the key maps to `t`, other keys are unchanged, a new key is appended, an existing key is replaced in place with the key order unchanged |
| SimLedger.FindAppended | plugins_broker/backtrader_simulation_broker.py:173 | appending a trade with a fresh id keeps ids distinct and makes only that key find the new trade |
| SimLedger.FindReplaced | plugins_broker/backtrader_simulation_broker.py:231-234 | replacing the trade under an existing key keeps ids distinct and the key list equal, and leaves other keys untouched |
| SimLedger.FindReplacedOther | plugins_broker/backtrader_simulation_broker.py:231-234 | a key other than the replaced one finds the same trade before and after |
| SimLedger.KeysListed | plugins_broker/backtrader_simulation_broker.py:293 | a key is in the snapshot exactly when it finds an open trade |
| SimLedger.NothingFiled | plugins_broker/backtrader_simulation_broker.py:353-354 | a table in which no key finds a trade is empty |
| SimBroker.Init | plugins_broker/backtrader_simulation_broker.py:53-62 | a new broker holds the initial cash as cash and equity, no trades, counter 1 and bar 0, and satisfies the cash accounting identity |
| SimBroker.CostsAreLinear | plugins_broker/backtrader_simulation_broker.py:112-116 | commission is linear in lots; swap is linear in lots and in days held; nothing is charged for zero lots or zero days |
| SimBroker.SpreadCost | plugins_broker/backtrader_simulation_broker.py:105-107 | the spread in pips converted at the pip value; zero exactly when the spread or the pip value is zero |
| SimBroker.SpreadIgnoresVolume | plugins_broker/backtrader_simulation_broker.py:105-107 | the spread charged is the same whatever the volume |
| SimBroker.SlippageCost | plugins_broker/backtrader_simulation_broker.py:109-110 | the slippage in pips converted at the pip value; zero exactly when the slippage or the pip value is zero |
| SimBroker.Commission | plugins_broker/backtrader_simulation_broker.py:112-113 | the per-lot commission for each lot; zero exactly when the rate or the volume is zero |
| SimBroker.SwapCost | plugins_broker/backtrader_simulation_broker.py:115-116 | the per-lot daily swap for each lot and each day; zero exactly when the rate, the volume or the days are zero |
| SimBroker.FillPrice | plugins_broker/backtrader_simulation_broker.py:146-151 | a buy fills spread plus slippage above the mark and anything else the same distance below; with positive costs a buy fills above the close and a sell below |
| SimBroker.UpdateEquity | plugins_broker/backtrader_simulation_broker.py:390-400 | only equity changes; equity exceeds cash by the unrealized P&L at the current close, and equals cash with nothing open |
| SimBroker.OpenOrder | plugins_broker/backtrader_simulation_broker.py:122-176 | without a price and outside the bars: "No price available", nothing changes. Otherwise one trade is appended under a fresh id `str(next_id)`, cash falls by exactly the commission, the counter rises by one, nothing else changes, and the cash identity is kept |
| SimBroker.FreshId | plugins_broker/backtrader_simulation_broker.py:156-157 | the id spelled from the counter belongs to no open trade |
| SimBroker.Admitted | plugins_broker/backtrader_simulation_broker.py:153-173 | filing a fresh trade appends it, keeps the broker invariants and keeps the cash identity |
| SimBroker.Settle | plugins_broker/backtrader_simulation_broker.py:191-217 | P&L is the price move in the trade's favour times volume times lot size; swap is the per-lot-day rate times volume times the non-negative days held; net P&L is P&L minus swap |
| SimBroker.CloseOrder | plugins_broker/backtrader_simulation_broker.py:178-223 | an unknown id fails with "Trade … not found" and no change. A known id is always popped, even when no price is found. With a price, the settled trade is appended to history once, cash rises by exactly its net P&L, and equity is marked to market |
| SimBroker.ModifyOrder | plugins_broker/backtrader_simulation_broker.py:225-235 | an unknown id fails with no change; otherwise only the given levels of that trade change, every other trade and field stays, and the key order is kept |
| SimBroker.GetCurrentPrice | plugins_broker/backtrader_simulation_broker.py:257-269 | "No data" exactly outside the bars; otherwise bid and ask are one spread apart, centred on the close, and carry the instrument name or the configured default |
| SimBroker.GetAccountSummary | plugins_broker/backtrader_simulation_broker.py:244-252 | equity is refreshed first; balance is cash; equity is balance plus unrealized P&L; margin is zero |
| SimBroker.GetTradeHistory | plugins_broker/backtrader_simulation_broker.py:254-255 | `history[-count:]`: the last `count` trades, all trades for 0, and all but the first `-count` for a negative count |
| SimBroker.CloseTarget | plugins_broker/backtrader_simulation_broker.py:379 | the broker order id when it is non-empty; otherwise the order id when one is given; otherwise "" |
| SimBroker.ExecuteOrder | plugins_broker/backtrader_simulation_broker.py:368-381 | "open" opens with the configured instrument, "buy" and 0.1 lots as defaults; "close" closes with reason "manual" by default; anything else is "Unknown action" with no change |
| SimRun.ExitFor | plugins_broker/backtrader_simulation_broker.py:293-323 | the stop is checked first, so a bar that touches both levels exits at the stop as "stop_loss"; otherwise a touched target exits at the target as "take_profit"; no exit exactly when neither is touched |
| SimRun.UnknownDirectionNeverExits | plugins_broker/backtrader_simulation_broker.py:300-323 | a trade that is neither buy nor sell never exits on a bar |
| SimRun.TickTrades | plugins_broker/backtrader_simulation_broker.py:293-323 | the per-trade loop appends its closes to history and raises cash by their total net P&L, keeping the invariants and the cash identity |
| SimRun.TickStep | plugins_broker/backtrader_simulation_broker.py:294-323 | a trade is closed exactly when it is still open and the bar triggers its exit, at the level and reason `ExitFor` gives and at the bar's time |
| SimRun.TickTradesRemoves | plugins_broker/backtrader_simulation_broker.py:293-323 | after the loop, exactly the snapshot trades whose exit fired are gone; every other trade is unchanged and no trade appears |
| SimRun.SnapshotHead | plugins_broker/backtrader_simulation_broker.py:293 | membership in the id snapshot splits into its head and its tail |
| SimRun.TickTradesCloses | plugins_broker/backtrader_simulation_broker.py:293-323 | every trade the loop closes was open before the tick and left at the level and reason its exit gives |
| SimRun.Tick | plugins_broker/backtrader_simulation_broker.py:275-326 | moves to the given or next bar; past the end it closes nothing and returns `[]`; otherwise its closes are appended to history, cash rises by their net P&L and equity is marked to the bar's close |
| SimRun.TickRunsSnapshot | plugins_broker/backtrader_simulation_broker.py:293-323 | inside the data, `tick` closes what the per-trade loop over a snapshot of the open keys closes, and leaves the book it leaves |
| SimRun.TickSettles | plugins_broker/backtrader_simulation_broker.py:293-323 | inside the data, a trade leaves the book exactly when its exit triggers, every other trade stays, no trade appears, and each close is of an open trade at the level and reason the bar triggered |
| SimRun.TickClosesTriggered | plugins_broker/backtrader_simulation_broker.py:293-323 | inside the data, every open trade whose exit triggers is among the closes, no trade is closed twice, and the closes follow the order the trades were opened |
| SimRun.TickTradesCovers | plugins_broker/backtrader_simulation_broker.py:293-323 | every snapshot trade that is open and whose exit the bar triggers is closed by the loop |
| SimRun.TickTradesFromSnapshot | plugins_broker/backtrader_simulation_broker.py:293 | every trade the loop closes is named in the snapshot |
| SimRun.TickTradesDistinct | plugins_broker/backtrader_simulation_broker.py:293-323 | the loop closes each trade at most once, since a closed trade leaves the book |
| SimRun.TickTradesOrdered | plugins_broker/backtrader_simulation_broker.py:293-323 | the loop's closes follow the order of the snapshot |
| SimRun.Apply | plugins_broker/backtrader_simulation_broker.py:352-353 | a strategy call keeps the broker invariants and the bars, and keeps the cash identity while a bar is current |
| SimRun.ApplyAll | plugins_broker/backtrader_simulation_broker.py:352-353 | the same for a bar's whole list of strategy calls |
| SimRun.RunBars | plugins_broker/backtrader_simulation_broker.py:346-356 | the bar loop ends on the last bar, keeps the invariants and keeps the cash identity |
| SimRun.ForceClose | plugins_broker/backtrader_simulation_broker.py:358-360 | every listed trade is gone afterwards and the others are untouched; each forced close is "end_of_data" at the last bar's close and time |
| SimRun.WinnersCounted | plugins_broker/backtrader_simulation_broker.py:407 | the winners are exactly the trades whose net P&L is strictly positive |
| SimRun.LosersCounted | plugins_broker/backtrader_simulation_broker.py:408 | the losers are exactly the trades whose net P&L is zero or negative |
| SimRun.WinnersAndLosers | plugins_broker/backtrader_simulation_broker.py:407-408 | winners (net P&L > 0) plus losers (≤ 0) is the trade count |
| SimRun.CountReason | plugins_broker/backtrader_simulation_broker.py:420-423 | positive exactly when some trade carries the reason |
| SimRun.ReturnPct | plugins_broker/backtrader_simulation_broker.py:412 | compounding the percentage back onto the initial cash gives the final cash |
| SimRun.WinRate | plugins_broker/backtrader_simulation_broker.py:416 | 0 without trades; otherwise rate times trades is winners, within [0, 1] |
| SimRun.CloseReasons | plugins_broker/backtrader_simulation_broker.py:420-423 | exactly the reasons that occur, each mapped to its positive count |
| SimRun.Summarize | plugins_broker/backtrader_simulation_broker.py:402-425 | winners plus losers is the trade count; the win rate is winners over trades, or 0; the return compounds back to the final cash; the totals are the sums over history; the reasons are exactly those present, each with its count |
| SimRun.SummaryCounts | plugins_broker/backtrader_simulation_broker.py:407-424 | the summary's winners are the trades with positive net P&L, its losers all the others, and each reason maps to the number of trades closed for it |
| SimRun.Reset | plugins_broker/backtrader_simulation_broker.py:342-345 | cash, history, open trades and bar pointer are reset and nothing else changes |
| SimRun.RunSimulation | plugins_broker/backtrader_simulation_broker.py:328-362 | empty bars raise "No data loaded…". Otherwise no trade is open at the end, leftovers close as "end_of_data" at the last bar, and final cash is initial cash minus commissions plus net P&L |
| Heuristic.Resolve | plugins_strategy/heuristic_strategy.py:12-30 | no overrides gives the defaults |
| Heuristic.ResolveMerges | plugins_strategy/heuristic_strategy.py:48 | each known key takes its override if there is one, else its default |
| Heuristic.SeqMax | plugins_strategy/heuristic_strategy.py:62 | `max`: an element, and no element exceeds it |
| Heuristic.SeqMin | plugins_strategy/heuristic_strategy.py:63 | `min`: an element, and no element is below it |
| Heuristic.Present | plugins_strategy/heuristic_strategy.py:55-60 | the non-missing predictions; empty exactly when all are missing |
| Heuristic.RiskReward | plugins_strategy/heuristic_strategy.py:64-80 | reward over risk for a positive drawdown, else 0 |
| Heuristic.SideLeg | plugins_strategy/heuristic_strategy.py:63-80 | profit in pips converts back to the gain; drawdown is floored at the minimum; the target is the multiplier's share of the gain; the stop is the multiplier times the drawdown |
| Heuristic.Analyse | plugins_strategy/heuristic_strategy.py:62-80 | the long side gains towards the highest prediction and the short side towards the lowest; each side's drawdown is the other side's profit, floored |
| Heuristic.StopsBracketPrice | plugins_strategy/heuristic_strategy.py:64-80 | with positive pip cost, stop multiplier and floor: the buy stop is below the price and the sell stop above it |
| Heuristic.RawSize | plugins_strategy/heuristic_strategy.py:194-200 | the maximum from the upper threshold, the minimum up to the lower one, linear in between and within [min, max] |
| Heuristic.ComputeSize | plugins_strategy/heuristic_strategy.py:185-202 | the interpolated size, capped at balance times relative volume times leverage |
| Heuristic.RawSizeMonotone | plugins_strategy/heuristic_strategy.py:194-200 | a better risk/reward never gives a smaller uncapped size |
| Heuristic.SizeMonotone | plugins_strategy/heuristic_strategy.py:185-202 | a better risk/reward never gives a smaller position |
| Heuristic.ComputeSignal | plugins_strategy/heuristic_strategy.py:33-111 | no daily predictions: hold. Buy exactly when the long profit reaches the threshold and the long risk/reward is at least the short one (ties go to buy); sell on a strictly better short side. A non-positive size holds. An entry is at the price, with the side's target and stop and a positive volume |
| Heuristic.TargetOffsetPositive | plugins_strategy/heuristic_strategy.py:64-80 | a side whose profit reaches a positive threshold has a positive target distance |
| Heuristic.EntryLevels | plugins_strategy/heuristic_strategy.py:64-110 | under positive parameters a buy has `sl < price < tp` and a sell `tp < price < sl` |
| Heuristic.Buffer | plugins_strategy/heuristic_strategy.py:150 | variant F's margin is half the distance between the stop and a non-zero entry price, and zero without one |
| Heuristic.MinBelow | plugins_strategy/heuristic_strategy.py:131-141 | the minimum is below a level exactly when some prediction is |
| Heuristic.MaxAbove | plugins_strategy/heuristic_strategy.py:157-167 | the maximum is above a level exactly when some prediction is |
| Heuristic.BelowConcat | plugins_strategy/heuristic_strategy.py:132-133 | some element of a concatenation is below a level exactly when some element of a part is |
| Heuristic.AboveConcat | plugins_strategy/heuristic_strategy.py:158-159 | the same, above a level |
| Heuristic.LowFacts | plugins_strategy/heuristic_strategy.py:130-153 | the minima the long variants compare are below the stop exactly when a prediction is |
| Heuristic.HighFacts | plugins_strategy/heuristic_strategy.py:156-179 | the maxima the short variants compare are above the stop exactly when a prediction is |
| Heuristic.EarlyCloseLong | plugins_strategy/heuristic_strategy.py:126-155 | A: any prediction below the stop; B: daily only; C: hourly only; D: both; E: the 60/40 blend of minima (or A when one side is empty); F: hourly below the buffered stop or daily below the stop; unknown variants never fire |
| Heuristic.EarlyCloseShort | plugins_strategy/heuristic_strategy.py:156-179 | the mirror image, with maxima above the stop |
| Heuristic.ShouldEarlyClose | plugins_strategy/heuristic_strategy.py:114-182 | false for variant G, for an unknown direction, and for E with both lists empty; otherwise the long or short rule |
| Heuristic.VariantsNest | plugins_strategy/heuristic_strategy.py:130-179 | for either direction D implies E implies A, D implies B and C, and F implies A |
| Heuristic.LongVariantsNest | plugins_strategy/heuristic_strategy.py:130-155 | the nesting for a long position |
| Heuristic.ShortVariantsNest | plugins_strategy/heuristic_strategy.py:156-179 | the nesting for a short position |
| Heuristic.NoEntryFIsA | plugins_strategy/heuristic_strategy.py:149-153 | without an entry price, variant F decides exactly as A does |
| Heartbeat.ReferencePrice | app/heartbeat.py:144-152 | the last historical close if present, else the first short-term prediction, else none |
| Heartbeat.ComputeHeuristicSignal | app/heartbeat.py:134-165 | no price gives hold "no price data"; otherwise the strategy's signal at that price on the long-term predictions, with the asset's configuration over the defaults |
| Heartbeat.OnlyLongTermDrivesSignal | app/heartbeat.py:154-165 | two replies with the same price and long-term predictions give the same signal; short-term values matter only as the fallback price |
| Heartbeat.AssetTally | app/heartbeat.py:95-126 | a skipped or failing asset adds nothing; any other asset adds one signal, plus one filled order exactly when it enters |
| Heartbeat.ProcessPortfolio | app/heartbeat.py:81-131 | orders never outnumber signals, and signals never outnumber assets |
| Heartbeat.QuietPortfolio | app/heartbeat.py:95-126 | assets that yield no signal tally nothing |
| Heartbeat.OrdersFromAssets | app/heartbeat.py:108-126 | every recorded order comes from one of the portfolio's assets |
| Heartbeat.AssetOrdersRecorded | app/heartbeat.py:108-126 | every order an asset yields is recorded |
| Heartbeat.TallyAdds | app/heartbeat.py:95-129 | assets are independent: the tally of a concatenation is the sum of the parts' tallies |
| Heartbeat.RunPortfolios | app/heartbeat.py:52-65 | each portfolio is either processed or leaves one error line; orders never outnumber signals |
| Heartbeat.RunOnePortfolio | app/heartbeat.py:52-65 | a portfolio whose assets cannot be listed leaves only its error line; any other is counted once and adds its signals and orders |
| Heartbeat.RunPortfoliosSplit | app/heartbeat.py:52-65 | portfolios are independent: the loop over a list is the merge of the loops over its parts |
| Heartbeat.PortfolioErrors | app/heartbeat.py:52-70 | there are no error lines exactly when every portfolio's assets were listed; each failure leaves its own line |
| Heartbeat.RunHeartbeatCycle | app/heartbeat.py:27-78 | a failed listing is the single critical error with no status stored; otherwise the status is "ok" exactly when no portfolio failed, else "errors" |
| Pipeline.EffectiveLatency | plugins_pipeline/default_pipeline.py:110-116 | the portfolio's latency unless it is missing or zero, else the global one |
| Pipeline.ShouldExecute | plugins_pipeline/default_pipeline.py:108-117 | never run means due; otherwise due exactly when at least the latency in minutes has passed |
| Pipeline.DueStaysDue | plugins_pipeline/default_pipeline.py:108-117 | once due, a portfolio stays due as time passes |
| Pipeline.JustRunNotDue | plugins_pipeline/default_pipeline.py:108-117 | just after running, a portfolio with a positive latency is not due |
| Pipeline.ExecuteAsset | plugins_pipeline/default_pipeline.py:159-247 | a missing strategy or broker plugin gives an error and no order; at most one order, made exactly for a buy or sell with no open order that the broker accepts |
| Pipeline.ExecuteAssets | plugins_pipeline/default_pipeline.py:142-151 | every asset is processed and the loop itself reports no error; every order-placing asset's order is collected, and with no such asset there are none |
| Pipeline.OrdersFromPlacingAssets | plugins_pipeline/default_pipeline.py:142-151 | every collected order is the order of an asset that places one |
| Pipeline.ExecuteAssetsCounted | plugins_pipeline/default_pipeline.py:142-151 | the number of orders created is the number of assets that place one |
| Pipeline.ExecutePortfolio | plugins_pipeline/default_pipeline.py:119-157 | no portfolio plugin gives one error and nothing processed; a raising listing or allocation reports its error with nothing processed; otherwise every asset is processed |
| Pipeline.Step | plugins_pipeline/default_pipeline.py:80-96 | a selected, due portfolio is executed and counted and adds exactly the orders its execution created; its record advances unless the commit raises; each exception becomes one error line |
| Pipeline.CombineAssociates | plugins_pipeline/default_pipeline.py:77-96 | combining per-portfolio results is associative |
| Pipeline.RunLoop | plugins_pipeline/default_pipeline.py:77-96 | one record per portfolio; executions and errors never exceed the portfolios |
| Pipeline.RunLoopAdvances | plugins_pipeline/default_pipeline.py:83-91 | a portfolio's `last_execution` advances exactly when it executed and its commit went through |
| Pipeline.RunLoopErrors | plugins_pipeline/default_pipeline.py:93-96 | no errors exactly when no portfolio's handling raised |
| Pipeline.RunLoopIdle | plugins_pipeline/default_pipeline.py:77-91 | when nothing is due, nothing runs and no order is counted |
| Pipeline.RunLoopSplits | plugins_pipeline/default_pipeline.py:77-96 | portfolios do not influence each other: the loop over a concatenation is the sum of the loops over the parts |
| Pipeline.RecordStatistics | plugins_pipeline/default_pipeline.py:249-269 | exactly three statistics, in this order: portfolios executed, total orders, error count |
| Pipeline.Run | plugins_pipeline/default_pipeline.py:64-106 | a failed listing is reported alone; otherwise the counters, errors and records are the portfolio loop's, with the three statistics exactly when they are enabled |
| CoreLoop.EvolvesTransitive | plugins_core/default_core.py:214-215 | append-only orders and append-or-close positions compose across steps |
| CoreLoop.ClosedFromTransitive | plugins_core/default_core.py:381-388 | closing a closed row again still changes only the closing fields |
| CoreLoop.Realized | plugins_core/default_core.py:385-388 | a buy realizes the price gain times quantity; anything else realizes the price drop |
| CoreLoop.RealizedSign | plugins_core/default_core.py:385-388 | for a positive quantity a close earns exactly when the price moved the position's way |
| CoreLoop.SaveTradingResult | plugins_core/default_core.py:331-398 | a successful open appends one "filled" order and one "open" position at the execution price with zero P&L. A successful close of a stored position marks it closed at the close price with the realized P&L, and nothing else changes. In every other case, and on any exception, the tables are unchanged |
| CoreLoop.ProcessAsset | plugins_core/default_core.py:283-329 | the broker is called exactly when both plugins exist and the action is not "none"; a failing broker or strategy leaves the tables unchanged |
| CoreLoop.Allocate | plugins_core/default_core.py:264-266 | exactly the assets the allocation names get their capital set |
| CoreLoop.ProcessAssets | plugins_core/default_core.py:273-274 | assets are processed in turn; if none calls the broker, nothing changes |
| CoreLoop.ProcessAssetsSingle | plugins_core/default_core.py:273-274 | one asset is processed exactly as `_process_asset` processes it |
| CoreLoop.ProcessAssetsSplit | plugins_core/default_core.py:273-274 | the loop runs assets in turn: a split list runs its first part, then its second on the tables the first left |
| CoreLoop.ProcessAssetsSkips | plugins_core/default_core.py:283-329 | an asset that does not reach the broker, or whose broker call raises, leaves the tables untouched for the next asset |
| CoreLoop.ProcessPortfolio | plugins_core/default_core.py:224-281 | skipped exactly when already run and fewer minutes than the latency have passed (equality runs); a missing plugin or no assets stops without advancing; an allocation error is swallowed; otherwise every asset runs and `last_execution` becomes now |
| CoreLoop.AllocationOnlySetsCapital | plugins_core/default_core.py:264-266 | allocation changes only the capital field |
| CoreLoop.RunPortfolios | plugins_core/default_core.py:214-215 | one state per portfolio: skipped exactly when too soon; processed ones advance to now; the others keep their record |
| CoreLoop.ExecuteTradingLoop | plugins_core/default_core.py:204-222 | a failed listing changes nothing; otherwise the portfolio fold; the tables only grow or close positions |
| Oanda.Attempts | plugins_broker/oanda_broker.py:90-103 | attempts stay within the limit; a failure uses all of them; there is one sleep fewer than the attempts made |
| Oanda.AttemptsFacts | plugins_broker/oanda_broker.py:90-103 | success exactly when some attempt responds, and then the response is the first one; otherwise the last error, or the initial value with no attempt |
| Oanda.AttemptsSleeps | plugins_broker/oanda_broker.py:99-101 | the sleep after failed attempt n is `retry_backoff * 2^n` |
| Oanda.Request | plugins_broker/oanda_broker.py:87-103 | at most `retries` (or `max_retries`) attempts; the first response is returned; sleeps double, one fewer than the attempts; all failing re-raises the last error; no attempt at all raises the TypeError of `raise None` |
| Oanda.AttemptsStep | plugins_broker/oanda_broker.py:97-101 | one failed attempt unfolds the retry trace by one sleep |
| Oanda.RequestLoop | plugins_broker/oanda_broker.py:87-103 | the imperative loop computes exactly the trace `Request` describes |
| Oanda.Trunc | plugins_broker/oanda_broker.py:131 | `int()` truncates toward zero |
| Oanda.Units | plugins_broker/oanda_broker.py:130-131 | `int(volume)` for a buy and its negation otherwise; from one unit up, positive exactly for a buy; zero for volumes below one unit in magnitude |
| Oanda.OrElse | plugins_broker/oanda_broker.py:150-151 | `a or b` on optional strings |
| Oanda.OpenOrder | plugins_broker/oanda_broker.py:113-158 | the body carries the signed units and exactly the given levels; the reply fails exactly when the request does, with its error; the order id comes from the fill, else the create transaction |
| Oanda.CloseOrder | plugins_broker/oanda_broker.py:160-169 | succeeds exactly when some attempt responds |
| Oanda.ModifyOrder | plugins_broker/oanda_broker.py:171-188 | with neither level there is no request and "No modifications specified"; otherwise the body carries exactly the given levels |
| Oanda.ToOpenTrade | plugins_broker/oanda_broker.py:199-208 | buy exactly when the current units are positive; units is their absolute value |
| Oanda.GetOpenTrades | plugins_broker/oanda_broker.py:190-211 | any failure gives `[]`; otherwise one entry per listed trade, in order |
| Oanda.CloseId | plugins_broker/oanda_broker.py:297-298 | the non-empty broker order id, else the position id, else "" |
| Oanda.ExecuteOrder | plugins_broker/oanda_broker.py:288-304 | "open" goes to `open_order` with side "buy" and quantity 1 as defaults; "close" closes the chosen id; anything else is "Unknown action" |
| CsvData.LoadCsv | feeder_plugins/csv_feeder.py:24-49 | a blank path is a ValueError; a missing file is a FileNotFoundError naming it; otherwise the rows |
| CsvPredictor.Periods | predictor_plugins/csv_predictor.py:14-21 | defined exactly on 1h, 2h, 6h, 12h, 1d and 1w, always at least one row |
| CsvPredictor.HorizonToPeriods | predictor_plugins/csv_predictor.py:72-75 | the table entry, or "Unknown horizon: …" exactly for strings outside the table |
| CsvPredictor.HorizonTable | predictor_plugins/csv_predictor.py:14-21 | the six entries are 1, 2, 6, 12, 24 and 168 rows |
| CsvPredictor.Init | predictor_plugins/csv_predictor.py:35-51 | a blank `csv_file`, then an empty horizon list, are ValueErrors; a missing file is a FileNotFoundError; otherwise the loaded predictor |
| CsvPredictor.Entry | predictor_plugins/csv_predictor.py:99-109 | the entry reads the current row and the row `n` ahead; the current close times one plus the prediction is the future close |
| CsvPredictor.FirstUnknown | predictor_plugins/csv_predictor.py:96 | the first horizon outside the table, every earlier one being known; none exactly when all are known |
| CsvPredictor.Reachable | predictor_plugins/csv_predictor.py:97-98 | exactly the configured horizons whose look-ahead row exists |
| CsvPredictor.Emit | predictor_plugins/csv_predictor.py:95-110 | an unknown horizon raises; otherwise one entry per reachable horizon, in configured order |
| CsvPredictor.Predict | predictor_plugins/csv_predictor.py:81-111 | empty data fails the lookup; otherwise one entry per reachable horizon, with status "success" even when there are none |
| CsvPredictor.PredictionsLookAhead | predictor_plugins/csv_predictor.py:99-109 | on strictly increasing timestamps every future timestamp is later than the current one |
| CsvPredictor.ValidatePredictionCapability | predictor_plugins/csv_predictor.py:113-123 | one flag per configured horizon, true exactly when its look-ahead row exists |
| CsvPredictor.CapabilityMatchesPredict | predictor_plugins/csv_predictor.py:95-123 | a horizon is flagged exactly when `predict` at the same row emits it |
| CsvFeeder.Init | feeder_plugins/csv_feeder.py:24-36 | the loading errors as for the predictor; the horizon defaults to 48 |
| CsvFeeder.UsableEnd | feeder_plugins/csv_feeder.py:57-59 | `horizon_periods` rows before the end, or the end when that leaves none |
| CsvFeeder.GetLatestData | feeder_plugins/csv_feeder.py:55-62 | at most `periods` rows; for non-negative arguments, the contiguous `min(periods, usable end)` rows ending at the usable end |
| CsvFeeder.GetData | feeder_plugins/csv_feeder.py:64-68 | all rows for a missing count or one at least the length; the last `periods` rows otherwise; all rows for 0; the first `-periods` rows dropped for a negative count |
| CsvFeeder.GetDataAtTime | feeder_plugins/csv_feeder.py:70-74 | at most `periods` contiguous rows ending at and including the nearest row |
| CsvFeeder.ValidateDataAvailability | feeder_plugins/csv_feeder.py:86-90 | false for empty data; otherwise the first row is no later than `start` and the last no earlier than `end` |
| CsvFeeder.AvailabilityMeansCoverage | feeder_plugins/csv_feeder.py:86-90 | on time-ordered rows: some row is at or before `start` and some row at or after `end` |
| PredictionClient.Horizon | app/prediction_client.py:125-198 | exactly `n` predictions and `n` uncertainties |
| PredictionClient.HorizonPrefix | app/prediction_client.py:129-157 | later steps never change earlier ones |
| PredictionClient.HorizonStep | app/prediction_client.py:125-198 | an existing row gives its close with the in-range uncertainty; a missing one repeats the previous prediction (or the current close first) with the fallback uncertainty |
| PredictionClient.Reach | app/prediction_client.py:131-133 | the steps that land on an existing row form a prefix |
| PredictionClient.HorizonRepeatsLastReached | app/prediction_client.py:129-157 | every step's prediction is the close of the last row the horizon could still reach |
| PredictionClient.History | app/prediction_client.py:200-209 | up to 1000 rows before the nearest row plus that row, at most 1001 rows |
| PredictionClient.CsvPredictions | app/prediction_client.py:93-216 | nothing loaded is a ValueError; each requested type gets six predictions and uncertainties (short reads hourly, long every 24 rows) and other types are absent |
| PredictionClient.ApiLoopEntries | app/prediction_client.py:231-249 | every requested type gets its stored lists and other entries are untouched |
| PredictionClient.ApiLoopStatus | app/prediction_client.py:231-252 | the status stays "success" exactly when every request succeeded, else "partial_failure" |
| PredictionClient.ApiPredictions | app/prediction_client.py:218-252 | one entry per requested type; failures get empty lists; the status is "success" exactly when every request succeeded |
| PredictionClient.GetPredictions | app/prediction_client.py:72-91 | both types by default; CSV mode exactly in test mode, the API otherwise |
| PredictionClient.DeriveUncertainties | app/prediction_client.py:334-343 | a scalar is wrapped and null is empty; one uncertainty per prediction, a tenth of its distance from the mean |
| PredictionClient.SumConstant | app/prediction_client.py:340 | the sum of equal values is their count times the value |
| PredictionClient.ConstantHasNoUncertainty | app/prediction_client.py:334-343 | equal predictions have zero uncertainty |
| PredictionClient.MeanOfConstant | app/prediction_client.py:340 | the mean of equal values is that value |
| PredictionClient.NoUncertaintyMeansConstant | app/prediction_client.py:334-343 | zero uncertainties everywhere mean all predictions are equal |
| RateLimiter.Init | app/rate_limiter.py:17-28 | a new limiter has no recorded calls |
| RateLimiter.Prune | app/rate_limiter.py:42 | keeps exactly the calls younger than the period, each as many times as it was recorded |
| RateLimiter.IsAllowed | app/rate_limiter.py:30-46 | prunes the window; denies exactly when the retained count reaches the limit, storing nothing new; otherwise records now and allows; other users are untouched |
| RateLimiter.StaysBounded | app/rate_limiter.py:42-46 | no user ever holds more than `max_calls` timestamps |
| RateLimiter.UsersIndependent | app/rate_limiter.py:28-46 | one user's call changes neither another user's answer nor what is stored for them |
| RateLimiter.DeniedUntilExpiry | app/rate_limiter.py:42-44 | a full window keeps denying until a recorded call ages out |
| RateLimiter.PruneKeepsAll | app/rate_limiter.py:42 | pruning a window that is all recent keeps it whole |
| PluginBase.SetParams | app/plugin_base.py:28-34 | given keys are written, new keys added, the others unchanged |
| PluginBase.Init | app/plugin_base.py:19-26 | the defaults overridden by the configuration: configured keys take the configured value, other defaults stay |
| PluginBase.SetParamsIdempotent | app/plugin_base.py:33-34 | setting the same values twice is setting them once |
| PluginBase.SetParamsComposes | app/plugin_base.py:33-34 | two updates are one update in which the later values win |
| PluginBase.Get | app/plugin_base.py:41 | `params.get`: None for a missing key |
| PluginBase.GetDebugInfo | app/plugin_base.py:36-41 | exactly the debug variables, each with its parameter value or None |
| PluginBase.AddDebugInfo | app/plugin_base.py:43-48 | the given dictionary updated with the debug information, which wins on shared keys |
| BacktraderMetrics.CountNonZeroCounted | plugins_broker/backtrader_broker.py:272-275 | counts exactly the positions with non-zero size |
| BacktraderMetrics.CountActivePositions | plugins_broker/backtrader_broker.py:264-275 | the non-zero positions of the class-level list when there is one, else of the per-feed dictionary |
| BacktraderMetrics.ActivePositionsCounted | plugins_broker/backtrader_broker.py:264-275 | whichever list is read, the count is the number of its positions with non-zero size |
| BacktraderMetrics.WinsExact | plugins_broker/backtrader_broker.py:331 | the wins are exactly the trades with positive P&L, as many as there are such trades |
| BacktraderMetrics.LossesExact | plugins_broker/backtrader_broker.py:332 | the losses are exactly the trades with negative P&L, as many as there are such trades |
| BacktraderMetrics.WinsLossesFlats | plugins_broker/backtrader_broker.py:331-336 | the counts of wins, losses and zero-P&L trades add up to the number of trades |
| BacktraderMetrics.MaxPnl | plugins_broker/backtrader_broker.py:340 | the largest P&L: a trade's, and no trade's exceeds it |
| BacktraderMetrics.MinPnl | plugins_broker/backtrader_broker.py:341 | the smallest P&L: a trade's, and none is below it |
| BacktraderMetrics.MeanPnl | plugins_broker/backtrader_broker.py:337-338 | mean times count is the total |
| BacktraderMetrics.MeanSign | plugins_broker/backtrader_broker.py:337-338 | a mean has the sign of the total it averages |
| BacktraderMetrics.WinRate | plugins_broker/backtrader_broker.py:335 | winners over trades, within [0, 1] |
| BacktraderMetrics.Stats | plugins_broker/backtrader_broker.py:329-342 | counts, win rate, total P&L, the largest and smallest P&L of the list, and the average win and loss |
| BacktraderMetrics.SumPositive | plugins_broker/backtrader_broker.py:337 | a sum of profits is positive |
| BacktraderMetrics.SumNegative | plugins_broker/backtrader_broker.py:338 | a sum of losses is negative |
| BacktraderMetrics.AveragesSigned | plugins_broker/backtrader_broker.py:337-338 | the average win is positive and the average loss negative whenever there are any |
| BacktraderMetrics.TotalReturn | plugins_broker/backtrader_broker.py:323-326 | compounding the return onto the initial value gives the final one |
| BacktraderMetrics.Measure | plugins_broker/backtrader_broker.py:323-328 | the performance block: the final value, the return that compounds to it, and the same in percent |
| BacktraderMetrics.GetPerformanceMetrics | plugins_broker/backtrader_broker.py:313-363 | no portfolio values gives only the error entry; a zero initial cash raises; otherwise the return and, exactly when trades exist, their statistics |
| BacktraderMetrics.SwitchPredictionSource | plugins_broker/backtrader_broker.py:365-388 | anything but "csv" or "api" raises naming it; otherwise the source is set in the state and the configuration and the updates are merged |
| BacktraderMetrics.GetPredictions | plugins_broker/backtrader_broker.py:112-143 | never raises: a CSV or API answer, or an empty list with the error, including for an unknown source |

## Left out

- Loading CSV files (pandas), SQLAlchemy sessions and commits, and the ORM fields the pipeline reads but the schema lacks. Rows and tables are values; loading is a `Loader` parameter.
- Network calls: the oandapyV20 endpoint objects, the prediction client's HTTP polling, and the backtrader broker's API request. Each is an outcome parameter.
- Threads, asyncio tasks and the `schedule` library; `heartbeat_loop`, `start_heartbeat` and `stop_heartbeat`; `_update_config`.
- Randomness: the non-look-ahead noise branch of the prediction client, and the random default broker and strategy.
- Floating-point rounding and formatting (`round`, `f"{x:.5f}"`, `np.mean`). Prices are exact reals, and means are sums over counts.
- JSON decoding of `strategy_config` and the other stored configuration strings; configuration arrives decoded.
- The abstract plugin methods of `plugin_base.py` (lines 50-111), which only raise `NotImplementedError`.
- `get_data_info` of the feeder and `get_open_orders` of the simulation broker, which only restate data already modelled.
- The OANDA broker's `get_current_price`, `get_account_summary` and history queries, which only reshape an endpoint's response.
- The backtrader `BackBroker` internals that the backtrader broker delegates to.
- SimRun.RunSimulation: requires a non-zero initial cash, because `_summary` divides by it and raises `ZeroDivisionError` otherwise.
- SimBroker.CloseOrder: requires a non-zero pip value through `Valid`, because settling a trade divides by it (`close_order`, lines 193-195 of `backtrader_simulation_broker.py`). `Valid` carries the same requirement into every member that may close a trade or keeps the broker valid: SimBroker.Init, OpenOrder, ModifyOrder, ExecuteOrder and Settle, and SimRun.TickStep, TickTrades, Tick, Apply, ApplyAll, RunBars, ForceClose, Reset and RunSimulation. The source accepts a zero pip value until the first close, where it raises `ZeroDivisionError`.
- SimRun.Tick: the bar index is a natural number. The source also accepts a negative index, which reads a bar counted from the end of the list; that case is not modelled.
- SimRun.Apply: a strategy's calls are limited to placing, closing and amending orders. Its read-only calls (prices, the account summary, the open trades) change nothing and are not modelled as calls.
- Oanda.Request: a negative `retry_backoff` makes `time.sleep` raise `ValueError` after the first failed attempt (line 101 of `oanda_broker.py`). The model keeps retrying and records the negative waits.
- CsvPredictor.Predict: requires a non-zero current close; the source then produces IEEE infinities, which `real` cannot represent.
- Oanda.ExecuteOrder: a missing `position_id` closes the trade id `""`, as in the source. The model cannot tell a missing key from one explicitly set to `None`; the source formats the latter as the trade id "None".
- Oanda.CloseOrder: states success in terms of the responding attempts, not the response's contents.
- CoreLoop.ProcessAsset: the strategy's result is a parameter; the fixed placeholder market data and predictions the source passes it are not modelled.
- PredictionClient.CsvPredictions: only look-ahead mode is modelled, and the random branch is left out as stated above.
- Configurable column names of the CSV plugins; the model reads the time and close columns directly.
