# XAUUSD War Room: signal and trade-resolution core

This project models the decision logic of the XAUUSD "War Room" dashboard
(`app.py`) in Dafny and proves properties of it. The dashboard shows gold
signals from two evaluators and keeps a list of logged trades. The modelled
parts are:

- **Sweep detector** (`Sweep`). It looks at the last 20 M15 bars for a
  liquidity sweep followed by a change of character. Positions 0..14 are the
  reference window, positions 15..18 the recent window, and the close of
  position 19 is the trigger.
- **Sniper ("All-In") evaluator** (`AllIn`). It runs a chain of gates in a
  fixed order: the red-news traffic light, the sweep, the DXY change, the
  GC=F change and retail sentiment. It ends in a fixed 1:2 risk:reward setup.
- **Normal-mode evaluator** (`Normal`). It classifies the H4 and M15 trends
  from the second-to-last bar's close against its EMA50. It applies the RSI
  over-extension check and builds levels from the EMA50 and ATR14.
- **Pending-trade resolver** (`Trades`, `Journal.TradeJournal.CheckPendingTrades`).
  It checks every open trade against the latest bar's high and low. The stop
  is checked before the target. Resolved trades are removed by value.
- **News merge and next red event** (`News`). ForexFactory events within one
  hour of an MT5 event are dropped. The result is sorted by time and scanned
  for the soonest high-impact event between half an hour ago and three hours
  ahead.
- **De-duplicating logger and the refresh cycle** (`Journal`). A setup is
  logged only when its key differs from the last key logged. The slot is
  shared by both modes.

Prices are `real`. Indicator values (EMA50, ATR14, RSI14) are input columns
aligned with their frames. Event times are whole seconds, and each event
carries the hours-until value its feed reader computed. The clock (`now`, the
trade id) is a parameter.

Properties worth noting:

- The sweep detector is characterised with quantifiers, independently of its
  min/max computation: "some recent low lies below every reference low, and
  the trigger closes above every recent high". On well-formed bars a LONG and
  a SHORT sweep exclude each other (`Sweep.SweepsExclusive`).
- The All-In geometry is exactly 1:2 for every input, and the stop is never
  more than 3.0 from the entry. The stop is on the protective side of the
  entry only when the trigger close beat the swept extreme by more than 0.5
  (`AllIn.LongStopProtects`). Otherwise the LONG buy limit sits at or below
  its own stop, with the target at or below the entry. This is evidently not
  intended. Such a trade is recorded as WIN on the first bar whose low stays
  above the stop, although that bar never reaches the buy limit
  (`Journal.InvertedLongWinsUnfilled`). The model keeps the program's
  behaviour, because the intended correction cannot be read off the code.
- The shared `last_logged_setup` slot only suppresses consecutive repeats.
  When both modes propose in the same cycle, both are logged again on every
  cycle (`Journal.AlternatingKeysRelog`, `Journal.BothModesRelog`). So while
  both setups stand, the journal gains two duplicate trades on every refresh.
  This too looks unintended, and the model keeps it as written.

A bar that reaches both the stop and the target resolves as LOSS; there is
no tie-break on the close.

## Model

| member | source | states |
|---|---|---|
| `Market.MinLow` | app.py:163-167 | the lowest low of a window is at most every low in it and equals one of them |
| `Market.MaxHigh` | app.py:164-169 | the highest high of a window is at least every high in it and equals one of them |
| `Sweep.DetectChochAndSweep` | app.py:160-171 | fewer than 20 bars gives not-found; LONG exactly when some recent low undercuts every reference low and the latest close exceeds every recent high; SHORT exactly on the mirror condition when LONG does not hold; the reported extreme is the recent low (high) and the price is the latest close |
| `Sweep.RecentExtremes` | app.py:163-170 | the min/max comparisons the code makes are equivalent to the quantified sweep conditions |
| `Sweep.SweepsExclusive` | app.py:167-170 | on bars with low <= high, a window is never both a LONG and a SHORT sweep, so checking LONG first hides no SHORT sweep |
| `Sweep.SweepTriggerBeyondExtreme` | app.py:167-170 | a LONG sweep's trigger close is above its swept low, and a SHORT sweep's is below its swept high |
| `News.DropNearDuplicates` | app.py:120 | an event is kept exactly when it is in the ForexFactory list and more than 3600 s from every MT5 event; every copy of a kept event stays and every copy of a duplicate goes |
| `News.DropNearDuplicatesAppend` | app.py:120 | the filter keeps the ForexFactory order: filtering a concatenation gives the concatenation of the filtered parts |
| `News.DropNearDuplicatesSingle` | app.py:120 | a single event survives the filter exactly when no MT5 event is within 3600 s of it |
| `News.SortByTime` | app.py:121 | the result is ordered by event time and is a permutation of the input |
| `News.InsertAfterTies` | app.py:121 | inserting an event places it after every event already present at the same time |
| `News.SortByTimeStable` | app.py:121 | the sort is stable: events at the same time keep their input order, which decides the title reported when two red events share a time |
| `News.MergedNews` | app.py:120-121 | the merged list is sorted by time, contains every MT5 event, and is exactly the MT5 events plus the non-duplicate ForexFactory events as a multiset |
| `News.NextRedIsFirstNearest` | app.py:122-126 | the scan finds nothing exactly when no event is High impact with hours in [-0.5, 3]; otherwise it reports such an event with the fewest hours, the first of them in list order |
| `News.MergeNewsSources` | app.py:119-127 | returns the merged sorted list and the next red event with the properties above |
| `AllIn.NewsLight` | app.py:176-182 | green exactly for hours in [0.25, 0.5], red for [-0.5, 0.25), white with no red event, yellow otherwise |
| `AllIn.LongLevels` | app.py:195-197 | entry is close - 1.0; the stop is the higher of swept low - 0.5 and entry - 3.0, so at most 3.0 below entry; target - entry = 2 * (entry - stop) |
| `AllIn.ShortLevels` | app.py:205-207 | entry is close + 1.0; the stop is the lower of swept high + 0.5 and entry + 3.0; entry - target = 2 * (stop - entry) |
| `AllIn.LongStopProtects` | app.py:195-197 | the LONG stop is below the entry, with a risk of at most 3.0, exactly when the close exceeds the swept low by more than 0.5, and exactly when the target is above the entry |
| `AllIn.ShortStopProtects` | app.py:205-207 | the SHORT stop is above the entry, with a risk of at most 3.0, exactly when the swept high exceeds the close by more than 0.5 |
| `AllIn.AllInSetup` | app.py:173-210 | no frame gives WAIT under a red light; otherwise the light is the news gate's and there is no proposal outside the green window; with no sweep it is WAIT; LONG is proposed exactly on a LONG sweep with DXY change <= 0, GC=F change >= 0 and retail short >= 75; SHORT exactly on the mirror; the levels are the 1:2 geometry at the sweep's close and extreme |
| `AllIn.ProposalRisk` | app.py:184-207 | a proposed trade's stop protects its entry exactly when the trigger close beat the swept extreme by more than 0.5 |
| `Normal.TrendOf` | app.py:145-146 | the trend is UP exactly when the close is strictly above the EMA50, so a tie counts as DOWN |
| `Normal.NormalSetup` | app.py:138-157 | a missing frame gives WAIT (no data); LONG/PENDING LONG exactly when both trends are UP, SHORT/PENDING SHORT exactly when both are DOWN, WAIT (mismatch) otherwise; PENDING LONG exactly when RSI > 70 and PENDING SHORT exactly when RSI < 30; entry is the EMA50, or EMA50 -/+ 0.5 ATR when pending; stop and target are EMA50 -/+ 2 ATR |
| `Normal.SetupRiskReward` | app.py:151-156 | with a positive ATR every setup has its stop and target on opposite sides of its entry; a market setup risks 2 ATR for 2 ATR, a pending one 1.5 ATR for 2.5 ATR |
| `Trades.Resolve` | app.py:233-239 | LOSS exactly when the bar touches the stop, even if it also touches the target; WIN exactly when it touches only the target; no result when it touches neither |
| `Trades.PartitionByResult` | app.py:228-245 | the trades kept are exactly those without a result, the removed ones exactly those with one, and together they are the original trades as a multiset |
| `Trades.UpdatesMatchResolved` | app.py:240-243 | one update is sent per resolved trade, in order, carrying its id and result |
| `Trades.IndexOf` | app.py:245 | the first occurrence of a trade in the list |
| `Trades.RemoveFirstCuts` | app.py:245 | removing a trade by value cuts the list at its first occurrence and leaves everything else in place |
| `Trades.RemoveStep` | app.py:245 | removing the k-th collected trade by value removes that trade and nothing else, because equal trades resolve alike |
| `Trades.DropAll` | app.py:245 | removing every collected trade leaves exactly the trades without a result, in their original order |
| `Journal.LogIfNew` | app.py:294-298 | the key is remembered either way, and the trade is appended exactly when the key differs from the last key logged |
| `Journal.RepeatLogsOnce` | app.py:296-298 | offering the same key twice in a row logs one trade |
| `Journal.AlternatingKeysRelog` | app.py:294-335 | two different keys offered alternately are logged every time, for any number of rounds |
| `Journal.CycleShape` | app.py:268-335 | a refresh keeps the open trades that did not resolve on the latest bar, in order, and appends at most two new trades, both stamped with the current clock second; the stored key is the old one or the key of a setup this cycle proposed |
| `Journal.InvertedLongWinsUnfilled` | app.py:195-197 | when the trigger close beat the swept low by at most 0.5, any bar whose low stays above the LONG stop never reaches the buy limit, yet the trade resolves as WIN |
| `Journal.BothModesRelog` | app.py:294-335 | when both modes propose and the last key is a normal-mode key, the cycle logs two new trades and ends with a normal-mode key again |
| `Journal.CollectResolved` | app.py:228-244 | the first pass collects exactly the resolving trades, in order, with their updates |
| `Journal.TradeJournal.constructor` | app.py:23-24 | a new session has no open trades and the empty key |
| `Journal.TradeJournal.LogNewTrade` | app.py:213-224 | the trade is appended to the open list, and nothing else changes |
| `Journal.TradeJournal.CheckPendingTrades` | app.py:226-245 | the open list becomes exactly its unresolved trades in order, and the updates are those of the resolved trades |
| `Journal.TradeJournal.RecordSetup` | app.py:294-298 | logs exactly when the key is new and always remembers the key |
| `Journal.TradeJournal.CheckLatestBar` | app.py:273 | with an M15 frame the open trades are resolved on its latest bar; without one nothing changes |
| `Journal.TradeJournal.LogAllIn` | app.py:294-298 | an All-In proposal is logged under the key "All-In at this entry" when new |
| `Journal.TradeJournal.LogNormal` | app.py:331-335 | a normal-mode setup is logged under the key "normal at this entry" when new |
| `Journal.TradeJournal.RunCycle` | app.py:268-335 | one refresh: merge the news, resolve on the latest bar, evaluate and log All-In, then evaluate and log normal mode, ending in the state `Cycle` describes |

## Left out

- Data fetching and persistence are not modelled. This covers Firebase, yfinance and the ForexFactory XML download and parsing (`get_market_data`, `fetch_ff_xml`, `get_forexfactory_usd`). The frames, news lists and DXY/GC=F changes are inputs.
- The POSTs to the Google Sheets endpoint are not modelled, so they have no effect.
- LogNewTrade: appends unconditionally. In the source, a POST that raises skips the append.
- CheckPendingTrades: assumes every update is delivered. In the source, a POST that raises leaves that trade in the list. A level that fails to parse is skipped the same way.
- The `"ใส่_URL" in GOOGLE_SHEET_API_URL` guards are not modelled. They test a constant URL that never matches, so they never return early.
- The EMA50, ATR14 and RSI14 computations (pandas_ta) are left out because they are library calls. Their columns are inputs.
- NaN values are not modelled, because floating point is not modelled. An undefined EMA makes the source's comparisons false.
- NormalSetup: requires at least two rows in each frame. The source indexes `iloc[-2]` and raises on shorter frames.
- Retail sentiment is an input. `get_retail_sentiment` returns constants.
- Datetime and timezone arithmetic (the UTC+7 shifts) is not modelled. Event times and the clock are whole seconds.
- Each event's hours-until value is taken as computed by the feed reader. It is computed at fetch time.
- MT5 impact labels other than High, Medium and Low are not modelled.
- Price levels are carried as numbers. The `$x.2f` formatting, its 2-decimal rounding and the regex re-parsing in `check_pending_trades` are not modelled. That regex also strips minus signs.
- LogIfNew: compares entries as exact numbers. The source compares the formatted 2-decimal strings, so two entries that round alike are one key there and two keys here.
- A logged trade keeps its id, mode, signal and levels. The timestamp, reason text and action fields of the payload are dropped. Resolution depends only on the kept fields, so removal by value gives the same list.
- Wait reasons are an enumeration instead of the displayed (Thai) text.
- The final `return "WAIT", "รอ...", {}, light` of `calculate_all_in_setup` is unreachable. A found sweep is always LONG or SHORT, so the model has no such branch.
- The Streamlit UI, CSS, metrics, the TradingView widget and `plot_setup_chart` are left out because they are display only.
- Auto-refresh and session-state caching are left out because they are scheduling.
