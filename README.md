# stockBotBacktest in Dafny

This project models the momentum backtest in `stockBotBacktest/main.py` and the
older ranking kept in `stockBotBacktest/storage.py`. The backtest works over hourly OHLC bars
per symbol. For each trading day after the first `top_gainers_lookback_days`, it does three things in order:

- It runs the exit rules over a snapshot of the open positions. The rules are a morning-cutoff exit, a take-profit and a trailing stop-loss.
- It ranks the symbols by percentage gain over `top_gainers_lookback_days` trading days.
- It opens a position in each ranked symbol whose smoothed velocity and acceleration pass the entry thresholds.

Every exit appends one row to the trade log.

Modules:

- `MarketData` (`market.dfy`) covers bars, the configuration constants of `config.py`, the bars of one day, the close of a day, and the sorted distinct trading days.
- `Signal` (`signal.dfy`) covers `calculate_vel_acc`: shifted-difference velocity and acceleration, trailing means, read at the last bar of the day. Values that pandas would leave as NaN are `None`.
- `ExitEvaluator` (`exit.dfy`) covers the exit rules of `check_sell` as a function over one day's bars, with a non-recursive characterisation of the exit it takes.
- `Ranking` (`ranking.dfy`) covers `filter_valid_symbols`, plus `get_top_gainers` of main.py with its stable descending sort.
- `Storage` (`storage.dfy`) covers `get_top_gainers` of storage.py. It looks back in index rows and ranks by absolute gain.
- `Backtest` (`backtest.dfy`) holds the `positions` dict and the trade log as the state of class `Simulation`:
  - The methods `Buy`, `Sell`, `CheckBuy`, `CheckSell` and `LoopThroughDays` follow the source's loops.
  - Each method is proved equal to a step function on `Book` values.
  - The lemmas are stated about those step functions.

The code checks take-profit before stop-loss within a bar. The comments at `main.py:5` and `main.py:214` say the stop-loss wins when both trigger in the same hour. The model follows the code: `ExitEvaluator.ExitReasons` proves that a bar reaching the take-profit sells at the take-profit even when its low also reaches the floor.

The trailing floor is reseeded from the buy price on every call of `check_sell`, as the code does. It does not carry over from one day to the next.

## Model

| member | source | states |
|---|---|---|
| MarketData.IndexOf | stockBotBacktest/main.py:105 | the index found holds the value and no earlier index does (`list.index`) |
| MarketData.DayBars | stockBotBacktest/main.py:115 | the bars selected all lie on the day; none are selected exactly when the symbol has no bar that day |
| MarketData.DayBarsKeepEveryBar | stockBotBacktest/main.py:115 | every bar of the series that falls on the day is selected |
| MarketData.DayBarsAppend | stockBotBacktest/main.py:187-199 | selecting from two consecutive stretches of a series selects from the first and then from the second, so the day's bars keep the series' order, the order `iterrows` walks them in |
| MarketData.DayBarsEndAtLastRow | stockBotBacktest/main.py:115-117 | when the day has a bar, the last bar selected is the series' last row on that day (`iloc[-1]`) |
| MarketData.LastIndexOn | stockBotBacktest/main.py:151-157 | the row of the day's last bar: it lies on the day, no later row does, and it is absent exactly when the day has no bar |
| MarketData.CloseOn | stockBotBacktest/main.py:114-118 | `close_price_for_day`: defined exactly when the symbol has a bar that day, equal to the close of the day's last row (`LastIndexOn`), positive for valid prices |
| MarketData.InsertDay | stockBotBacktest/main.py:101 | adding a day keeps the list strictly increasing and adds exactly that day |
| MarketData.AddDays | stockBotBacktest/main.py:101 | adds exactly the days of a series' bars, keeping the list strictly increasing |
| MarketData.DaysOf | stockBotBacktest/main.py:101 | strictly increasing, and a day is listed exactly when one of the symbols has a bar that day |
| MarketData.TradingDays | stockBotBacktest/main.py:101 | `sorted(set(index.date))`: strictly increasing (so no repeats), and it lists exactly the days on which some symbol has a bar |
| Signal.Velocity | stockBotBacktest/main.py:140 | defined exactly from row `velocity_lookback` on; positive exactly when the close rose over the lookback, zero exactly when it is unchanged |
| Signal.PrevVelocity | stockBotBacktest/main.py:142-144 | the velocity rebuilt from the two shifted closes equals the velocity `acceleration_lookback` rows earlier |
| Signal.VelocitySeries | stockBotBacktest/main.py:140 | the `velocity` column: one value per row, the velocity at that row, and NaN exactly on the first `velocity_lookback` rows |
| Signal.AccelerationSeries | stockBotBacktest/main.py:142-145 | the `acceleration` column: one value per row, the acceleration at that row, and NaN on the first `velocity_lookback + acceleration_lookback` rows |
| Signal.Acceleration | stockBotBacktest/main.py:145 | defined exactly when both velocities are and the current one is non-zero, and then equals `(v[t] - v[t - acceleration_lookback]) / v[t]` |
| Signal.SumAll | stockBotBacktest/main.py:147-148 | a window sum is defined exactly when every value in it is |
| Signal.RollingMean | stockBotBacktest/main.py:147-148 | `rolling(window).mean()` is defined exactly when the window is full and every value in it is defined |
| Signal.CalculateVelAcc | stockBotBacktest/main.py:151-160 | `(None, None)` when the day has no bars; any defined value implies the day has a bar |
| Signal.SumOfConstant | stockBotBacktest/main.py:147-148 | the sum of n equal defined values is n times the value |
| Signal.SumBounds | stockBotBacktest/main.py:147-148 | a sum of values within [lo, hi] lies within [n·lo, n·hi] |
| Signal.MeanOfConstantWindow | stockBotBacktest/main.py:147-148 | a full window of one value has that value as its mean |
| Signal.MeanWithinWindow | stockBotBacktest/main.py:147-148 | the trailing mean lies between the smallest and largest value of its window |
| Signal.VelAccAvailability | stockBotBacktest/main.py:140-160 | the smoothed velocity at the day's last bar t is defined exactly when `velocity_lookback + velocity_sma <= t + 1`, counting rows over the whole series across day boundaries; a defined acceleration needs `velocity_lookback + acceleration_lookback + acceleration_sma <= t + 1` |
| Signal.SteadyVelocity | stockBotBacktest/main.py:147-160 | a constant velocity over the smoothing window is returned unchanged as the smoothed velocity |
| Signal.NoLookAhead | stockBotBacktest/main.py:140-160 | the signal for a day is unchanged when every bar after that day's last bar is removed |
| ExitEvaluator.TakeProfitPrice | stockBotBacktest/main.py:195 | for a positive buy price, the take-profit price is above it exactly when `profit_target_pct` is positive |
| ExitEvaluator.InitialFloor | stockBotBacktest/main.py:196 | for a positive buy price, the seed floor is below it exactly when `trailing_stop_pct` is positive, and still a positive price exactly when `trailing_stop_pct` is under 1 |
| ExitEvaluator.Max | stockBotBacktest/main.py:213 | `max` is an upper bound of both arguments and equals one of them |
| ExitEvaluator.Ratchet | stockBotBacktest/main.py:213 | the floor after a bar is at least the old floor and at least `high * (1 - trailing_stop_pct)`, and equals one of the two |
| ExitEvaluator.FloorAfter | stockBotBacktest/main.py:196-213 | the floor never falls below its seed `buy_price * (1 - trailing_stop_pct)` |
| ExitEvaluator.Walk | stockBotBacktest/main.py:199-222 | an exit, when taken, is at a bar of the day at or after the walk's start. A morning exit is at a cutoff bar and sells at its close. A take-profit is at a bar whose high reaches the target and sells at the target. A stop-loss sells at or above the floor it started with, at a price the bar's low reached |
| ExitEvaluator.ExitOf | stockBotBacktest/main.py:194-222 | the decision of `check_sell` for one day: none on a day without bars; otherwise at a bar of the day, with a morning exit at its close, a take-profit at exactly `buy_price * (1 + profit_target_pct)`, and a stop-loss never below `buy_price * (1 - trailing_stop_pct)` and reached by the bar's low |
| ExitEvaluator.WalkIsFirstFiring | stockBotBacktest/main.py:199-222 | the bar loop exits at the first bar that fires, with that bar's exit, and exits nowhere only if no remaining bar fires |
| ExitEvaluator.ExitIsFirstFiringBar | stockBotBacktest/main.py:194-222 | `check_sell` sells at the first bar that reaches the cutoff hour, the take-profit or the ratcheted floor, at the price and for the reason that bar gives; it sells nowhere only when no bar of the day fires (the error path) |
| ExitEvaluator.CutoffForcesExit | stockBotBacktest/main.py:208-210 | a day with a bar at or after `morning_sell_time` always exits, at the latest at that bar |
| ExitEvaluator.ExitReasons | stockBotBacktest/main.py:208-220 | a morning exit happens exactly at a cutoff bar and sells at its close. A take-profit happens exactly when a pre-cutoff bar's high reaches `buy_price * (1 + profit_target_pct)` and sells at exactly that price, even if the low also reached the floor. A stop-loss sells at the ratcheted floor: at or above the bar's low and never below `buy_price * (1 - trailing_stop_pct)` |
| ExitEvaluator.ExitAtReasons | stockBotBacktest/main.py:208-220 | for one firing bar: cutoff bars sell at their close, otherwise a bar whose high reaches the target sells at the target, otherwise the sale is a stop-loss at the ratcheted floor, which the bar's low reached and which is never below the seed floor |
| ExitEvaluator.FloorMonotone | stockBotBacktest/main.py:213 | the trailing floor never moves down from one bar to a later one |
| ExitEvaluator.FloorCoversHighs | stockBotBacktest/main.py:213 | the floor is at least `high * (1 - trailing_stop_pct)` of every bar already seen |
| ExitEvaluator.FloorIsReached | stockBotBacktest/main.py:196-213 | the floor is always its seed or the trailing level of some bar already seen |
| ExitEvaluator.WorkedExample | stockBotBacktest/main.py:194-220 | with the shipped constants, a buy at 100 has target 104 and floor 98; a bar with high 103 lifts the floor to 100.94, and a later bar with low 100.5 stops out at 100.94 |
| Ranking.HasData | stockBotBacktest/main.py:79-88 | a symbol has data exactly when the frame has a series for it with a bar on some day |
| Ranking.Select | stockBotBacktest/main.py:85-93 | a symbol is listed exactly when it is an input symbol whose having data matches the list |
| Ranking.SelectPartitions | stockBotBacktest/main.py:73-94 | every input symbol lands in exactly one of the valid and missing lists, as many times as it occurs |
| Ranking.FilterValidSymbols | stockBotBacktest/main.py:73-94 | returns the input-order lists of the symbols with data and without data |
| Ranking.PctGain | stockBotBacktest/main.py:126 | the gain relative to today's close is positive exactly when the close rose and zero exactly when it is unchanged |
| Ranking.GainerOf | stockBotBacktest/main.py:121-127 | a symbol gets an entry exactly when it has a bar on both the day and the lookback day |
| Ranking.Candidates | stockBotBacktest/main.py:119-129 | the gainers list holds exactly the entries of the symbols that have one |
| Ranking.InsertByGain | stockBotBacktest/main.py:130 | an insertion step of the sort adds exactly the one entry |
| Ranking.SortByGain | stockBotBacktest/main.py:130 | the sort is a permutation of the gainers list |
| Ranking.SymbolsOf | stockBotBacktest/main.py:131 | lists the symbol of each entry, in order |
| Ranking.Ranked | stockBotBacktest/main.py:130 | the sorted gainers list is a permutation of the gainers list |
| Ranking.RankedEntries | stockBotBacktest/main.py:119-130 | every sorted entry is the gain entry of one of the frame's symbols |
| Ranking.LookbackDay | stockBotBacktest/main.py:101-112 | a lookback day exists exactly when the day is a trading day with at least `top_gainers_lookback_days` trading days before it; it is a trading day no later than the day |
| Ranking.TopGainers | stockBotBacktest/main.py:96-131 | at most `number_of_top_gainers` symbols. It is `[]` when the day is not a trading day or has too few trading days before it. Every symbol listed is in the frame and has a bar on the day |
| Ranking.GetTopGainers | stockBotBacktest/main.py:96-131 | the append loop, the sort and the cut compute `Ranking.TopGainers` |
| Ranking.CollectCandidates | stockBotBacktest/main.py:119-129 | the loop appends exactly the entries of `Ranking.Candidates`, in symbol order |
| Ranking.InsertKeepsRanked | stockBotBacktest/main.py:130 | inserting an entry that comes later in symbol order than every entry present keeps the list ranked |
| Ranking.SortIsRankedAndStable | stockBotBacktest/main.py:130 | sorting a list that is in symbol order yields non-increasing gains, with equal gains kept in symbol order (a stable `reverse=True` sort) |
| Ranking.CandidatesInOrder | stockBotBacktest/main.py:119-129 | with distinct symbols, the gainers list is appended in the frame's symbol order |
| Ranking.TopGainersOrdered | stockBotBacktest/main.py:119-131 | with distinct symbols, no symbol is listed twice, every listed symbol has a gain, and gains are non-increasing with ties in the frame's symbol order |
| Ranking.TopGainersKeepsBest | stockBotBacktest/main.py:130-131 | if a symbol with a gain is left out, the list is full and every listed symbol gains at least as much |
| Ranking.LookbackCountsTradingDays | stockBotBacktest/main.py:101-112 | the lookback day and the day are exactly `top_gainers_lookback_days` places apart in the list of trading days, so the lookback counts trading days, not calendar days |
| Storage.Universe | stockBotBacktest/storage.py:29-30 | the symbols passed in, or the frame's column levels when none are passed |
| Storage.RowOf | stockBotBacktest/storage.py:32-36 | the row of a label is found exactly when the label is in the index, and holds that label |
| Storage.GainAt | stockBotBacktest/storage.py:43-49 | a symbol gets an entry exactly when both closes can be read, otherwise it is skipped; the gain is positive exactly when the close rose |
| Storage.Gains | stockBotBacktest/storage.py:41-49 | the gainers list holds exactly the entries of the readable symbols |
| Storage.Rows | stockBotBacktest/storage.py:32-40 | rows exist exactly when the label is in the index with at least `top_gainers_lookback_days` rows before it; the lookback row is exactly that many rows earlier |
| Storage.Ranked | stockBotBacktest/storage.py:51 | the sorted list is a permutation of the gainers list |
| Storage.TopGainers | stockBotBacktest/storage.py:24-52 | at most `number_of_top_gainers` symbols; `[]` when the label is missing or too few rows precede it; every symbol listed is a ranked symbol with a close column |
| Storage.GetTopGainers | stockBotBacktest/storage.py:24-52 | the lookup, the loop, the sort and the cut compute `Storage.TopGainers` |
| Storage.CollectGains | stockBotBacktest/storage.py:41-49 | the loop appends exactly the entries of `Storage.Gains`, in symbol order |
| Storage.RankedEntries | stockBotBacktest/storage.py:41-51 | every sorted entry is the gain entry of a ranked symbol |
| Storage.GainsInOrder | stockBotBacktest/storage.py:42-49 | with distinct symbols, entries are appended in symbol order |
| Storage.TopGainersOrdered | stockBotBacktest/storage.py:41-52 | with distinct symbols, no symbol is listed twice, every listed symbol is readable, and absolute gains are non-increasing with ties in symbol order |
| Storage.TopGainersKeepsBest | stockBotBacktest/storage.py:51-52 | if a readable symbol is left out, the list is full and every listed symbol gains at least as much |
| Storage.LookbackCountsRows | stockBotBacktest/storage.py:37-40 | on an hourly index, the lookback is five rows back, not five days back |
| Storage.AbsoluteGainNotPercentage | stockBotBacktest/storage.py:46 | the gain is the absolute difference: a move from 100 to 105 outgains one from 10 to 12, which main.py's percentage gain ranks the other way |
| Backtest.Remove | stockBotBacktest/main.py:236 | deleting a key removes exactly that key from the dict's key order and keeps the keys distinct; deleting an absent key leaves the order unchanged |
| Backtest.RemoveCutsOut | stockBotBacktest/main.py:236 | in a key order without repeats, deleting a key cuts it out at its index and the other keys keep their relative order, as `del` does on a dict |
| Backtest.BuyStep | stockBotBacktest/main.py:170-175 | `positions[symbol]` becomes the new entry and no other key changes; the log is untouched; an overwritten key keeps its place in the key order and a new key goes last, as Python dicts order keys; keys stay well kept |
| Backtest.TradeOf | stockBotBacktest/main.py:227-234 | the logged row carries the symbol, the stored buy date, buy price, velocity and acceleration, the sell price and the reason |
| Backtest.SellStep | stockBotBacktest/main.py:225-236 | exactly one row is appended, built from the stored entry; the symbol is deleted and no other key changes; the key order is `Backtest.Remove` of the old one, so by `Backtest.RemoveCutsOut` the remaining keys keep their relative order |
| Backtest.ExitOn | stockBotBacktest/main.py:184-189 | a day without bars never sells |
| Backtest.CheckSellStep | stockBotBacktest/main.py:178-222 | nothing changes when the symbol is not held or no exit fires; otherwise the position is sold at the exit's price for its reason; held symbols keep their data |
| Backtest.EntrySignal | stockBotBacktest/main.py:164 | the entry test is strict: a velocity on either bound or an acceleration on its threshold never passes, and nothing passes unless `velocity_threshold_min < velocity_threshold_max` |
| Backtest.Entry | stockBotBacktest/main.py:162-175 | an entry is made exactly when both signals are defined and pass the strict thresholds; it is dated the day, priced at the close of the day's last bar, which is positive, and stores exactly the velocity and acceleration `calculate_vel_acc` returned |
| Backtest.CheckBuyStep | stockBotBacktest/main.py:162-175 | buys exactly when the entry test passes; never touches the log |
| Backtest.SellPhase | stockBotBacktest/main.py:248-249 | the sell loop only appends to the log and keeps the key order well kept |
| Backtest.BuyPhase | stockBotBacktest/main.py:252-254 | the buy loop leaves the log unchanged and keeps the key order well kept |
| Backtest.DayStep | stockBotBacktest/main.py:247-254 | a day only appends to the log |
| Backtest.RunDays | stockBotBacktest/main.py:247-254 | running days only appends to the log and keeps the key order well kept |
| Backtest.SimulatedDays | stockBotBacktest/main.py:246-247 | the simulated days are the trading days from index `top_gainers_lookback_days` on, increasing, and each has a lookback day for the ranking |
| Backtest.Backtest | stockBotBacktest/main.py:238-254 | the whole run keeps the key order well kept and every held symbol has data |
| Backtest.SellPhaseOutcome | stockBotBacktest/main.py:248-249 | after the sell loop, a position remains exactly when it was held and `check_sell` found no exit for it, and a remaining position is unchanged. Every row logged sells a position held at the day's start, with its stored entry and the exit found |
| Backtest.BuyPhaseOutcome | stockBotBacktest/main.py:252-254 | after the buy loop, a symbol is held exactly when it was held before or is a ranked symbol passing the entry test. A passing symbol holds today's entry, overwriting any earlier one, and every other position is unchanged |
| Backtest.FullDayClosesPositions | stockBotBacktest/main.py:208-210 | when every traded held symbol has a bar at the morning cutoff, the sell loop closes every position with bars that day, so no top gainer is still held when the buy loop runs |
| Backtest.CheckBuyIdempotent | stockBotBacktest/main.py:162-175 | running `check_buy` twice for one symbol and day has the effect of running it once |
| Backtest.LogOnlyGrows | stockBotBacktest/main.py:232-236 | the log of a run extends the log of the run over any prefix of its days |
| Backtest.Simulation.constructor | stockBotBacktest/main.py:17 | starts with no positions and an empty log |
| Backtest.Simulation.Buy | stockBotBacktest/main.py:167-175 | the new state is `Backtest.BuyStep` priced at the close of the day's last bar |
| Backtest.Simulation.Sell | stockBotBacktest/main.py:225-236 | the new state is `Backtest.SellStep` |
| Backtest.Simulation.CheckBuy | stockBotBacktest/main.py:162-165 | the new state is `Backtest.CheckBuyStep` |
| Backtest.Simulation.CheckSell | stockBotBacktest/main.py:178-222 | the bar loop with its ratcheting floor produces the new state `Backtest.CheckSellStep` |
| Backtest.Simulation.CheckSellAll | stockBotBacktest/main.py:248-249 | the loop over the key snapshot produces `Backtest.SellPhase` |
| Backtest.Simulation.CheckBuyAll | stockBotBacktest/main.py:253-254 | the loop over the ranked symbols produces `Backtest.BuyPhase` |
| Backtest.Simulation.RunDay | stockBotBacktest/main.py:248-254 | one day of the loop produces `Backtest.DayStep` |
| Backtest.Simulation.LoopThroughDays | stockBotBacktest/main.py:238-254 | clears the log and runs every simulated day, producing `Backtest.Backtest` |

## Left out

- Downloading market data (`get_data`, `get_price` in storage.py) is left out: it is a network call. The data is a parameter (`Market`, `Storage.Frame`).
- Reading the symbol file (`get_symbols`) is file I/O and is left out.
- `main` and its timing is left out too.
- Writing the trade log to CSV is modelled as an in-memory sequence of `Trade` rows:
  - the header row and the file truncation become `log := []`;
  - printed messages, including the "did not sell" error, the "no bars" notice and the progress counter, are not modelled.
- The timezone conversion of each bar's timestamp is left out. Each bar carries its exchange-local hour.
- graph.py is not part of this model: it is reporting over the trade log.
- `config.py` is a `Config` value plus `DefaultConfig`. The constants `lookback_days`, `stop_loss_pct`, `use_trailing_stop` and `max_concurrent_positions` are never read by the modelled code, so there is no concurrency cap.
- pandas frame layout:
  - Each symbol's bars are a separate sequence without NaN rows. Trading days are the days on which some symbol of the frame has a bar.
  - The shared index's all-NaN rows, and closes that are NaN inside a day, are not modelled.
  - `filter_valid_symbols` treats a symbol as having data when its series is non-empty. This covers both the dict branch and the `dropna(how='all')` branch, because rows are never all-NaN here.
- Floating point: prices are `real`, positive and consistent (`ValidBar`).
  - `Signal.Acceleration`: division by a zero velocity is undefined (`None`). pandas would produce ±inf there, which can pass the entry test; rounding is not modelled.
- `Backtest.Entry`: an undefined signal never enters. In the source, NaN fails every comparison. A `None` from a day without bars would raise; that path is unreachable from the driver, because every top gainer has a bar on the day.
- `Storage.RowOf`: the index is required to have no repeated labels. With repeated labels, `get_loc` returns a slice and the subtraction that follows raises.
- `Backtest.Simulation.CheckSell`: requires every held symbol to have a column in the data (`Held`). The source would raise a `KeyError` otherwise; every bought symbol comes from the data.
- Module-level state: `positions` is a field of `Simulation` and starts empty when the simulation is constructed. It is not reset by `LoopThroughDays`, matching the module-level dict.
