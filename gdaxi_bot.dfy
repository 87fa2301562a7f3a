/**
 * The bot's process-wide state and its trading step in imperative form: the
 * three globals become the fields of one object, and each call of Step updates
 * them in place, branch by branch, as one iteration of the polling loop does.
 */
module GdaxiBot {
  import opened Wrappers
  import opened Candles
  import opened TradingDay

  class Bot {
    var cash: real
    var position: int
    var lastHour: Option<Hour>

    /** The object invariant: the bot never holds a negative number of units. */
    ghost predicate Valid()
      reads this
    {
      position >= 0
    }

    /** The fields viewed as a value of the pure model. */
    function Portfolio(): (s: State)
      reads this
    {
      State(cash, position, lastHour)
    }

    /** Process start: the initial capital, no units, no report sent yet. */
    constructor ()
      ensures Valid()
      ensures Portfolio() == Initial
    {
      cash := InitialCapital;
      position := 0;
      lastHour := None;
    }

    /**
     * One iteration of the loop, given the clock reading and the quote answer.
     * The new fields, the outcome and the mail sent are those of TradingStep.
     */
    method Step(hour: Hour, minute: Minute, fetch: FetchResult) returns (outcome: Outcome, notice: Option<Notice>)
      requires Valid()
      modifies this
      ensures Valid()
      ensures StepResult(Portfolio(), outcome, notice) == TradingStep(old(Portfolio()), hour, minute, fetch)
    {
      if !IsActive(hour, minute) {
        return Idle, None;
      }

      if hour == 17 && minute >= 30 && position > 0 {
        var closing := LastTwoCompleted(fetch);
        if closing.Some? {
          var closePrice := closing.value.recent.close;
          cash := cash + position as real * closePrice;
          position := 0;
          return Liquidated(closePrice), Some(ClosingReport(cash, position));
        }
        return NoCloseData, None;
      }

      var candles := LastTwoCompleted(fetch);
      if candles.None? {
        return NoData, None;
      }

      var m1 := TypicalPrice(candles.value.recent);
      var m2 := TypicalPrice(candles.value.prior);
      var currentPrice := candles.value.recent.close;
      if m1 > m2 {
        cash := cash - currentPrice;
        position := position + 1;
      }
      outcome := Evaluated(m1 > m2, currentPrice);

      notice := None;
      if lastHour != Some(hour) {
        lastHour := Some(hour);
        notice := Some(HourlyReport(hour, minute, cash, position));
      }
    }
  }

  /**
   * Two iterations on one Bot, in the same hour before the close and on the
   * same bars: the first sends the hourly report exactly when that hour was
   * not yet reported, the second sends none; both see the same signal, so
   * together they buy two units or none, and the marker ends at that hour.
   */
  method TwoChecksInOneHour(bot: Bot, hour: Hour, minute1: Minute, minute2: Minute, bars: seq<Bar>)
      returns (first: Option<Notice>, second: Option<Notice>)
    requires bot.Valid()
    requires OpenMinute <= hour * 60 + minute1 < CloseMinute
    requires OpenMinute <= hour * 60 + minute2 < CloseMinute
    requires |bars| >= 3
    modifies bot
    ensures bot.Valid() && bot.lastHour == Some(hour)
    ensures first.Some? <==> old(bot.lastHour) != Some(hour)
    ensures first.Some? ==>
      var recent := bars[|bars| - 2];
      var buy := TypicalPrice(recent) > TypicalPrice(bars[|bars| - 3]);
      first.value == HourlyReport(hour, minute1,
        if buy then old(bot.cash) - recent.close else old(bot.cash),
        if buy then old(bot.position) + 1 else old(bot.position))
    ensures second.None?
    ensures var recent := bars[|bars| - 2];
      var buys := if TypicalPrice(recent) > TypicalPrice(bars[|bars| - 3]) then 2 else 0;
      bot.position == old(bot.position) + buys &&
      bot.cash == old(bot.cash) - buys as real * recent.close
  {
    var o1, o2;
    ghost var start := bot.Portfolio();
    o1, first := bot.Step(hour, minute1, History(bars));
    StrictBuy(start, hour, minute1, History(bars));
    HourlyReportCadence(start, hour, minute1, History(bars));
    ghost var mid := bot.Portfolio();
    o2, second := bot.Step(hour, minute2, History(bars));
    StrictBuy(mid, hour, minute2, History(bars));
    HourlyReportCadence(mid, hour, minute2, History(bars));
  }
}
