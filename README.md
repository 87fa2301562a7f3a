# GDAXI trading bot — a Dafny model of the trading step

The bot polls 15-minute bars of the DAX index (^GDAXI) and keeps a simulated
portfolio: cash in dollars (starting at 1,000,000) and a count of index units
(starting at 0). Each iteration of its loop does one trading step:

- Outside 09:30–17:30 (both ends included, Paris time) it does nothing.
- At 17:30 with units held, it sells them all at the close of the most recent
  completed bar and mails a closing report. The step then ends, even when no
  bar was available.
- Otherwise it takes the two latest completed bars, skipping the one still
  in progress. It buys one unit at the recent bar's close when that bar's
  typical price (mean of open, high, low, close) is strictly above the prior
  bar's.
- After a successful signal step, it mails an hourly report whenever the
  current hour differs from the hour of the last report.

The model has four modules:

- `Wrappers` (wrappers.dfy): the `Option` type.
- `Candles` (candles.dfy):
  - bars and the answer of the quote request;
  - the bar selection, the typical price and the buy signal.
- `TradingDay` (trading_day.dfy):
  - the market-hours gate and the portfolio state;
  - `TradingStep`, one step as a pure transition that returns the new state, an outcome and the mail sent, if any;
  - `Run`, the polling loop over a sequence of ticks;
  - the lemmas about one step and about runs.
- `GdaxiBot` (gdaxi_bot.dfy): class `Bot`. Its fields `cash`, `position` and `lastHour` are the program's three globals. Its `Step` method updates them in place, branch by branch, and is proved to agree with `TradingStep`.

Inputs that the program reads from its surroundings are parameters here:

- the local hour and minute;
- the quote answer, which is either the day's bars, oldest first with the in-progress bar last, or `FetchFailed` when the request raised.

Mails are returned as `Notice` values. Prices are exact `real`s.

Points of the step's behaviour worth noting:

- 17:30 itself is inside the active window. So at 17:30 with no units held, control falls through to the signal, and a buy can happen at 17:30.
- Out of hours, the step returns after a 60-second sleep. It does not wait until the next open.
- The closing mail shows cash and units only. No day gain is computed.
- The closing sale also needs at least three bars. It sells at the close of the second-to-last bar.
- The closing branch returns without sleeping. The loop can therefore run the step again within the minute 17:30. With no units left, that call falls through to the signal, and on a rise it buys a unit. A later call outside market hours leaves that unit held (`RebuyAfterClosingSale`, `GateLeavesStateUnchanged`).
- Only a call at exactly 17:30 sells. If the loop does not run during that minute, the position stays open into the next day (`NoSaleWithoutClosingTick`).
- The hour marker is never reset. Take a day's last successful signal step, in hour h. If no successful signal step in any other hour comes before the next one in hour h, that later step sends no report. This happens, for example, when feeds fail from 10:xx one day until 10:xx the next. `AtMostOneReportPerHour` proves the "none if already reported" part, and `HourlyReportCadence` shows the marker changes only on the signal path.

## Model

| member | source | states |
|---|---|---|
| `Candles.LastTwoCompleted` | gdaxi_bot.py:57-66 | No pair exactly when the request failed or gave fewer than 3 bars. Otherwise the pair is the last and second-to-last bars of the completed prefix, which leaves out the in-progress bar. |
| `Candles.InProgressBarIgnored` | gdaxi_bot.py:61-63 | Replacing the last (in-progress) bar by any other bar does not change the selection. |
| `Candles.NewBarShiftsSelection` | gdaxi_bot.py:61-63 | When a new bar appears, the bar that was in progress becomes the recent bar, and the former recent bar becomes the prior bar. |
| `Candles.BuySignal` | gdaxi_bot.py:101-105 | The signal holds iff the recent bar's open+high+low+close sum is strictly greater than the prior bar's. |
| `Candles.TypicalPrice` | gdaxi_bot.py:101-102 | A flat bar's typical price is its price, and the typical price is neither above all four prices of the bar nor below all four. |
| `Candles.BuySignalStrict` | gdaxi_bot.py:105 | Equal typical prices never signal a buy, and the signal is asymmetric. |
| `TradingDay.IsActive` | gdaxi_bot.py:76-80 | The bot's hour/minute test holds exactly on the minutes from 09:30 to 17:30, both included. |
| `TradingDay.IsClosingTime` | gdaxi_bot.py:83 | The sale test holds iff units are held and the time is from 17:30 up to 18:00. Inside the active window, this means 17:30 exactly. |
| `TradingDay.TradingStep` | gdaxi_bot.py:71-117 | The position is kept, raised by one or reset to 0. The hour marker is kept or set to the current hour. An hourly report is sent only when the marker differed, and the marker then equals the current hour. |
| `TradingDay.GateLeavesStateUnchanged` | gdaxi_bot.py:77-80 | The step is idle iff the time is outside 09:30–17:30. When idle, the state is unchanged and no mail is sent. |
| `TradingDay.LiquidationAtClose` | gdaxi_bot.py:83-91 | At 17:30 with units and at least 3 bars: cash becomes cash + units × close of the second-to-last bar, and units become 0. The marker is untouched, and the closing report shows the new cash and 0 units. |
| `TradingDay.LiquidationWithoutData` | gdaxi_bot.py:83-91 | At 17:30 with units and no usable bars, the step ends with no change and no mail. |
| `TradingDay.InsufficientData` | gdaxi_bot.py:94-98 | Outside the closing branch, a failed request or fewer than 3 bars leaves cash, units and marker unchanged, with no report. |
| `TradingDay.StrictBuy` | gdaxi_bot.py:101-108 | On the signal path, a buy happens iff M(recent) > M(prior). On a buy, cash drops by the recent close and units rise by 1. Otherwise both are unchanged. |
| `TradingDay.HourlyReportCadence` | gdaxi_bot.py:110-115 | On the signal path, the marker afterwards is the current hour. A report is sent iff the old marker differed, and it shows the post-trade cash and units. |
| `TradingDay.TradeConservesValue` | gdaxi_bot.py:86-108 | A sale or a signal step leaves cash + units × trade price as it was. |
| `TradingDay.Run` | gdaxi_bot.py:124-126 | A run of the loop sends no more mails than it has iterations. |
| `TradingDay.RunKeepsPositionNonNegative` | gdaxi_bot.py:87-108 | Along any run that starts with no negative holding, the number of units stays non-negative. |
| `TradingDay.AtMostOneReportPerHour` | gdaxi_bot.py:111-115 | Iterations that all read the same hour send at most one hourly report, and none if that hour was already reported. |
| `TradingDay.NewHourReportsOnce` | gdaxi_bot.py:111-115 | Entering a new hour on the signal path sends exactly one report, and a second iteration in that hour adds none. |
| `TradingDay.RebuyAfterClosingSale` | gdaxi_bot.py:77-108 | Two calls at 17:30 on the same rising bars, starting with units held: the first sells everything, the second buys one unit. The run ends with 1 unit, and cash = cash + units × close − close. A following call outside market hours leaves that state as it is. |
| `TradingDay.NoSaleWithoutClosingTick` | gdaxi_bot.py:77-91 | Along any run with no tick at exactly 17:30, the number of units never falls. |
| `TradingDay.DayScenario` | gdaxi_bot.py:101-108 | A buy at 102 (M 101.5 against 100.5) from 1,000,000, then a sale at 105 at 17:30, ends with 1,000,003 dollars and 0 units. |
| `GdaxiBot.Bot.constructor` | gdaxi_bot.py:24-26 | Start: 1,000,000 cash, 0 units, no report yet. |
| `GdaxiBot.Bot.Step` | gdaxi_bot.py:71-117 | Keeps units non-negative. The new fields, the outcome and the mail are those of `TradingStep` on the old fields. |
| `GdaxiBot.TwoChecksInOneHour` | gdaxi_bot.py:101-115 | Two calls on one bot, before the close in one hour and on the same bars. The first sends the report iff that hour was not yet reported, and the second sends none. The first report shows the cash and units after the first call's buy, if any. Together they buy two units on a rise and none otherwise. The marker ends at that hour. |

## Left out

- Quote retrieval (gdaxi_bot.py:58-60, 64-66) is a network call through a third-party library. The model takes its answer as an input, and a raised error becomes `FetchFailed`.
- Mail sending (gdaxi_bot.py:39-52) is SMTP I/O. The model returns the mail as a `Notice`. Delivery failures are only logged in the program, so they change no state.
- The clock, the time-zone conversion and every `time.sleep` (gdaxi_bot.py:74, 79, 97, 117) are left out: hour and minute are inputs, and sleeping has no effect on the state.
- Logging and the two-decimal / `HH:MM` formatting of the mails are left out. A notice carries the numbers, not the text.
- The catch-all around each iteration (gdaxi_bot.py:127-129) is left out. The modelled step raises nothing, because prices are exact and the fetch error is an input.
- Configuration loading (gdaxi_bot.py:14-20) is process setup and is left out.
- Floating-point rounding of prices and cash is left out: all arithmetic is exact.
