/**
 * One iteration of the GDAXI trading bot as a pure transition over its
 * portfolio state, and the properties of that transition.
 *
 * The wall clock is an input (the local hour and minute in the exchange's
 * time zone), and so is the answer of the quote source. Mail delivery becomes
 * an emitted notice; logging and sleeping are not modelled.
 */
module TradingDay {
  import opened Wrappers
  import opened Candles

  /** Clock readings, in the ranges a wall clock gives. */
  type Hour = h: int | 0 <= h < 24
  type Minute = m: int | 0 <= m < 60

  /** The active window, in minutes since midnight: 09:30 to 17:30, both included. */
  const OpenMinute: int := 9 * 60 + 30
  const CloseMinute: int := 17 * 60 + 30

  /** The starting cash of the simulated portfolio. */
  const InitialCapital: real := 1000000.0

  /**
   * The market-hours gate, written as the bot's own test of hour and minute;
   * it holds exactly on the minutes from 09:30 to 17:30, both ends included.
   */
  function IsActive(hour: Hour, minute: Minute): (active: bool)
    ensures active <==> OpenMinute <= hour * 60 + minute <= CloseMinute
  {
    !(hour < 9 || (hour == 9 && minute < 30) || (hour > 17 || (hour == 17 && minute > 30)))
  }

  /**
   * The bot's mutable state: cash in dollars, the number of index units held,
   * and the hour for which the last hourly report was sent (None before the first).
   */
  datatype State = State(cash: real, position: int, lastHour: Option<Hour>)

  /** The state at process start. */
  const Initial: State := State(InitialCapital, 0, None)

  /** A mail the bot sends: the closing report or the hourly report. */
  datatype Notice =
    | ClosingReport(cash: real, position: int)
    | HourlyReport(hour: Hour, minute: Minute, cash: real, position: int)

  /** How one iteration ended. */
  datatype Outcome =
    | Idle                          // outside market hours
    | NoCloseData                   // 17:30 with a position, but no bar to sell at
    | Liquidated(price: real)       // the whole position sold at this price
    | NoData                        // no two completed bars to compare
    | Evaluated(buy: bool, price: real)  // signal computed; one unit bought at price when buy

  datatype StepResult = StepResult(state: State, outcome: Outcome, notice: Option<Notice>)

  /**
   * True for the iteration that runs the closing liquidation branch: units
   * are held and the clock reads 17:30 or later within the 17th hour. Inside
   * the active window that leaves only the minute 17:30 itself.
   */
  function IsClosingTime(hour: Hour, minute: Minute, s: State): (closing: bool)
    ensures closing <==> CloseMinute <= hour * 60 + minute < 18 * 60 && s.position > 0
    ensures closing && IsActive(hour, minute) ==> hour * 60 + minute == CloseMinute
  {
    hour == 17 && minute >= 30 && s.position > 0
  }

  /**
   * One call of the trading step. Outside market hours nothing happens. At
   * 17:30 with a position the whole position is sold at the close of the most
   * recent completed bar, and the step ends whether or not a bar was there.
   * Otherwise, with two completed bars, one unit is bought on a strict rise of
   * the typical price, and then an hourly report is sent when the report marker
   * differs from the current hour.
   */
  function TradingStep(s: State, hour: Hour, minute: Minute, f: FetchResult): (r: StepResult)
    // the position is only kept, raised by one or reset to zero
    ensures r.state.position == s.position || r.state.position == s.position + 1
         || r.state.position == 0
    // the report marker is only kept or set to the current hour
    ensures r.state.lastHour == s.lastHour || r.state.lastHour == Some(hour)
    // an hourly report is sent only when the marker differed, and it moves the marker
    ensures r.notice.Some? && r.notice.value.HourlyReport? ==>
      s.lastHour != Some(hour) && r.state.lastHour == Some(hour)
  {
    if !IsActive(hour, minute) then
      StepResult(s, Idle, None)
    else if IsClosingTime(hour, minute, s) then
      match LastTwoCompleted(f)
      case None => StepResult(s, NoCloseData, None)
      case Some(candles) =>
        var closePrice := candles.recent.close;
        var closed := s.(cash := s.cash + s.position as real * closePrice, position := 0);
        StepResult(closed, Liquidated(closePrice), Some(ClosingReport(closed.cash, closed.position)))
    else
      match LastTwoCompleted(f)
      case None => StepResult(s, NoData, None)
      case Some(candles) =>
        var buy := BuySignal(candles);
        var price := candles.recent.close;
        var traded := if buy then s.(cash := s.cash - price, position := s.position + 1) else s;
        if traded.lastHour != Some(hour) then
          StepResult(traded.(lastHour := Some(hour)), Evaluated(buy, price),
                     Some(HourlyReport(hour, minute, traded.cash, traded.position)))
        else
          StepResult(traded, Evaluated(buy, price), None)
  }

  // ---------------------------------------------------------------------------
  // Properties of one step
  // ---------------------------------------------------------------------------

  /** Outside 09:30-17:30 the step is idle and changes nothing. */
  lemma GateLeavesStateUnchanged(s: State, hour: Hour, minute: Minute, f: FetchResult)
    ensures var r := TradingStep(s, hour, minute, f);
      (r.outcome.Idle? <==> !(OpenMinute <= hour * 60 + minute <= CloseMinute)) &&
      (r.outcome.Idle? ==> r.state == s && r.notice.None?)
  {
  }

  /**
   * At 17:30 with a position and at least three bars, the position is sold at
   * the close of the second-to-last bar; the hour marker is untouched and the
   * closing report shows the new cash and the zero position.
   */
  lemma LiquidationAtClose(s: State, f: FetchResult)
    requires s.position > 0
    requires f.History? && |f.bars| >= 3
    ensures var r := TradingStep(s, 17, 30, f);
      var price := f.bars[|f.bars| - 2].close;
      r.state == State(s.cash + s.position as real * price, 0, s.lastHour) &&
      r.outcome == Liquidated(price) &&
      r.notice == Some(ClosingReport(s.cash + s.position as real * price, 0))
  {
  }

  /** At 17:30 with a position but no usable bars, the step changes nothing and sends nothing. */
  lemma LiquidationWithoutData(s: State, f: FetchResult)
    requires s.position > 0
    requires f.FetchFailed? || |f.bars| < 3
    ensures TradingStep(s, 17, 30, f) == StepResult(s, NoCloseData, None)
  {
  }

  /**
   * Outside the closing branch, a failed request or fewer than three bars leave
   * cash, position and hour marker as they were, with no report.
   */
  lemma InsufficientData(s: State, hour: Hour, minute: Minute, f: FetchResult)
    requires IsActive(hour, minute) && !IsClosingTime(hour, minute, s)
    requires f.FetchFailed? || |f.bars| < 3
    ensures TradingStep(s, hour, minute, f) == StepResult(s, NoData, None)
  {
  }

  /**
   * On the signal path, one unit is bought at the recent bar's close exactly
   * when its typical price is strictly above the prior bar's; otherwise cash
   * and position stay as they were. This includes 17:30 with no position.
   */
  lemma StrictBuy(s: State, hour: Hour, minute: Minute, f: FetchResult)
    requires IsActive(hour, minute) && !IsClosingTime(hour, minute, s)
    requires f.History? && |f.bars| >= 3
    ensures var r := TradingStep(s, hour, minute, f);
      var recent := f.bars[|f.bars| - 2];
      var prior := f.bars[|f.bars| - 3];
      var buy := TypicalPrice(recent) > TypicalPrice(prior);
      r.outcome == Evaluated(buy, recent.close) &&
      (buy ==> r.state.cash == s.cash - recent.close && r.state.position == s.position + 1) &&
      (!buy ==> r.state.cash == s.cash && r.state.position == s.position)
  {
  }

  /**
   * On the signal path the marker afterwards is the current hour; a report is
   * sent exactly when the old marker differed, and it shows the cash and
   * position after the trade.
   */
  lemma HourlyReportCadence(s: State, hour: Hour, minute: Minute, f: FetchResult)
    requires IsActive(hour, minute) && !IsClosingTime(hour, minute, s)
    requires f.History? && |f.bars| >= 3
    ensures var r := TradingStep(s, hour, minute, f);
      r.state.lastHour == Some(hour) &&
      (r.notice.Some? <==> s.lastHour != Some(hour)) &&
      (r.notice.Some? ==> r.notice.value == HourlyReport(hour, minute, r.state.cash, r.state.position))
  {
  }

  /**
   * Every trade is value-neutral at its own price: cash plus position valued
   * at the trade price is the same before and after.
   */
  lemma TradeConservesValue(s: State, hour: Hour, minute: Minute, f: FetchResult)
    ensures var r := TradingStep(s, hour, minute, f);
      (r.outcome.Liquidated? ==>
        r.state.cash + r.state.position as real * r.outcome.price
        == s.cash + s.position as real * r.outcome.price) &&
      (r.outcome.Evaluated? ==>
        r.state.cash + r.state.position as real * r.outcome.price
        == s.cash + s.position as real * r.outcome.price)
  {
  }

  // ---------------------------------------------------------------------------
  // Runs of the polling loop
  // ---------------------------------------------------------------------------

  /** What one iteration of the loop is given: the clock reading and the quote answer. */
  datatype Tick = Tick(hour: Hour, minute: Minute, fetch: FetchResult)

  datatype RunResult = RunResult(state: State, notices: seq<Notice>)

  function NoticeList(n: Option<Notice>): (ns: seq<Notice>)
    ensures |ns| <= 1
  {
    match n
    case None => []
    case Some(x) => [x]
  }

  /** The loop calling the trading step once per tick, collecting the mails sent. */
  function Run(s: State, ticks: seq<Tick>): (r: RunResult)
    ensures |r.notices| <= |ticks|
    decreases |ticks|
  {
    if ticks == [] then RunResult(s, [])
    else
      var step := TradingStep(s, ticks[0].hour, ticks[0].minute, ticks[0].fetch);
      var rest := Run(step.state, ticks[1..]);
      RunResult(rest.state, NoticeList(step.notice) + rest.notices)
  }

  /** The number of hourly reports among the mails. */
  function HourlyReports(ns: seq<Notice>): (k: nat)
    ensures k <= |ns|
  {
    if ns == [] then 0
    else (if ns[0].HourlyReport? then 1 else 0) + HourlyReports(ns[1..])
  }

  lemma {:induction false} HourlyReportsAppend(a: seq<Notice>, b: seq<Notice>)
    ensures HourlyReports(a + b) == HourlyReports(a) + HourlyReports(b)
  {
    if a == [] {
      assert a + b == b;
    } else {
      assert (a + b)[1..] == a[1..] + b;
      HourlyReportsAppend(a[1..], b);
    }
  }

  /** The position stays non-negative along any run that starts non-negative. */
  lemma {:induction false} RunKeepsPositionNonNegative(s: State, ticks: seq<Tick>)
    requires s.position >= 0
    ensures Run(s, ticks).state.position >= 0
    decreases |ticks|
  {
    if ticks != [] {
      var step := TradingStep(s, ticks[0].hour, ticks[0].minute, ticks[0].fetch);
      RunKeepsPositionNonNegative(step.state, ticks[1..]);
    }
  }

  /**
   * Iterations that all read the same hour send at most one hourly report,
   * and none when the report for that hour was already sent.
   */
  lemma {:induction false} AtMostOneReportPerHour(s: State, ticks: seq<Tick>, hour: Hour)
    requires forall i :: 0 <= i < |ticks| ==> ticks[i].hour == hour
    ensures HourlyReports(Run(s, ticks).notices) <= (if s.lastHour == Some(hour) then 0 else 1)
    decreases |ticks|
  {
    if ticks != [] {
      var step := TradingStep(s, ticks[0].hour, ticks[0].minute, ticks[0].fetch);
      var rest := Run(step.state, ticks[1..]);
      AtMostOneReportPerHour(step.state, ticks[1..], hour);
      HourlyReportsAppend(NoticeList(step.notice), rest.notices);
    }
  }

  /**
   * Entering a new hour on the signal path sends exactly one report, and a
   * second iteration in that hour sends none.
   */
  lemma NewHourReportsOnce(s: State, t1: Tick, t2: Tick)
    requires t1.hour == t2.hour && s.lastHour != Some(t1.hour)
    requires IsActive(t1.hour, t1.minute) && !IsClosingTime(t1.hour, t1.minute, s)
    requires t1.fetch.History? && |t1.fetch.bars| >= 3
    ensures HourlyReports(Run(s, [t1]).notices) == 1
    ensures HourlyReports(Run(s, [t1, t2]).notices) == 1
  {
  }

  /**
   * The closing branch returns without pausing, so the loop may run the step
   * again within the minute 17:30. With no units left, that call falls
   * through to the signal, and on a rise it buys a unit; a later call
   * outside market hours leaves that unit held.
   */
  lemma RebuyAfterClosingSale(s: State, f: FetchResult, later: Tick)
    requires s.position > 0
    requires f.History? && |f.bars| >= 3
    requires TypicalPrice(f.bars[|f.bars| - 2]) > TypicalPrice(f.bars[|f.bars| - 3])
    requires !IsActive(later.hour, later.minute)
    ensures var close := f.bars[|f.bars| - 2].close;
      var r := Run(s, [Tick(17, 30, f), Tick(17, 30, f)]);
      r.state.position == 1 &&
      r.state.cash == s.cash + s.position as real * close - close
    // a following call outside market hours leaves that unit held
    ensures Run(s, [Tick(17, 30, f), Tick(17, 30, f), later]).state
         == Run(s, [Tick(17, 30, f), Tick(17, 30, f)]).state
  {
    var t := Tick(17, 30, f);
    var first := TradingStep(s, 17, 30, f);
    LiquidationAtClose(s, f);
    var second := TradingStep(first.state, 17, 30, f);
    StrictBuy(first.state, 17, 30, f);
    assert [t][1..] == [];
    assert Run(first.state, [t]).state == second.state;
    assert [t, t][1..] == [t];
    assert Run(s, [t, t]).state == second.state;
    var third := TradingStep(second.state, later.hour, later.minute, later.fetch);
    assert third.state == second.state;
    assert [later][1..] == [];
    assert Run(second.state, [later]).state == second.state;
    assert [t, later][1..] == [later];
    assert Run(first.state, [t, later]).state == second.state;
    assert [t, t, later][1..] == [t, later];
  }

  /**
   * Only a call at exactly 17:30 reduces the position: along a run with no
   * tick at 17:30 the number of units never falls.
   */
  lemma {:induction false} NoSaleWithoutClosingTick(s: State, ticks: seq<Tick>)
    requires forall i :: 0 <= i < |ticks| ==> ticks[i].hour * 60 + ticks[i].minute != CloseMinute
    ensures Run(s, ticks).state.position >= s.position
    decreases |ticks|
  {
    if ticks != [] {
      var step := TradingStep(s, ticks[0].hour, ticks[0].minute, ticks[0].fetch);
      assert step.state.position >= s.position;
      NoSaleWithoutClosingTick(step.state, ticks[1..]);
    }
  }

  /**
   * A day in numbers: at 10:00 the recent bar's typical price 101.5 beats the
   * prior's 100.5, so one unit is bought at 102; at 17:30 the position is sold
   * at 105. The closing report shows 1,000,003 dollars and no units.
   */
  lemma DayScenario()
    ensures
      var prior := Bar(100.0, 102.0, 99.0, 101.0);
      var recent := Bar(101.0, 103.0, 100.0, 102.0);
      var forming := Bar(102.0, 102.0, 102.0, 102.0);
      var closing := Bar(104.0, 106.0, 103.0, 105.0);
      var morning := TradingStep(Initial, 10, 0, History([prior, recent, forming]));
      var evening := TradingStep(morning.state, 17, 30, History([recent, closing, forming]));
      morning.state == State(999898.0, 1, Some(10)) &&
      morning.notice == Some(HourlyReport(10, 0, 999898.0, 1)) &&
      evening.state == State(1000003.0, 0, Some(10)) &&
      evening.notice == Some(ClosingReport(1000003.0, 0))
  {
  }
}
