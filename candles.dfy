/**
 * Quotes of the ^GDAXI index as the bot sees them: 15-minute bars, the
 * selection of the two latest completed bars, their typical prices and the
 * buy signal that compares them.
 *
 * Prices are exact reals; the float arithmetic of the quote library is not
 * modelled.
 */
module Candles {
  import opened Wrappers

  /** One 15-minute bar (a row of the quote history). */
  datatype Bar = Bar(open: real, high: real, low: real, close: real)

  /**
   * What the history request gives back: the bars of the day, oldest first,
   * the last of them still in progress, or a failure of the request.
   */
  datatype FetchResult = History(bars: seq<Bar>) | FetchFailed

  /** The two latest completed bars: `recent` is the newer, `prior` the one before. */
  datatype CandlePair = CandlePair(recent: Bar, prior: Bar)

  /**
   * The bar selection: nothing when the request failed or returned fewer than
   * three bars; otherwise the second-to-last and third-to-last bars, so the
   * last, still-forming bar is never used.
   */
  function LastTwoCompleted(f: FetchResult): (r: Option<CandlePair>)
    ensures r.None? <==> f.FetchFailed? || |f.bars| < 3
    ensures r.Some? ==>
      var completed := f.bars[..|f.bars| - 1];
      |completed| >= 2 &&
      r.value.recent == completed[|completed| - 1] &&
      r.value.prior == completed[|completed| - 2]
  {
    match f
    case FetchFailed => None
    case History(bars) =>
      if |bars| < 3 then None
      else Some(CandlePair(bars[|bars| - 2], bars[|bars| - 3]))
  }

  /** The selection does not depend on the bar still in progress. */
  lemma InProgressBarIgnored(bars: seq<Bar>, forming: Bar)
    requires |bars| >= 1
    ensures LastTwoCompleted(History(bars[..|bars| - 1] + [forming]))
         == LastTwoCompleted(History(bars))
  {
  }

  /**
   * When a new bar starts forming, the bar that was in progress becomes the
   * most recent completed one and the former most recent becomes the prior.
   */
  lemma NewBarShiftsSelection(bars: seq<Bar>, forming: Bar)
    requires |bars| >= 2
    ensures LastTwoCompleted(History(bars + [forming]))
         == Some(CandlePair(bars[|bars| - 1], bars[|bars| - 2]))
  {
  }

  /** The typical price M of a bar: the mean of its open, high, low and close. */
  function TypicalPrice(b: Bar): (m: real)
    // a flat bar's typical price is its price
    ensures b.open == b.high == b.low == b.close ==> m == b.close
    // the mean is neither above all four prices nor below all four
    ensures m <= b.open || m <= b.high || m <= b.low || m <= b.close
    ensures m >= b.open || m >= b.high || m >= b.low || m >= b.close
  {
    (b.open + b.high + b.low + b.close) / 4.0
  }

  /**
   * The buy signal: a strict rise of the typical price from the prior bar to
   * the recent one. Stated without the division by four, the signal compares
   * the sums of the four prices.
   */
  function BuySignal(p: CandlePair): (buy: bool)
    ensures buy <==>
      p.recent.open + p.recent.high + p.recent.low + p.recent.close >
      p.prior.open + p.prior.high + p.prior.low + p.prior.close
  {
    TypicalPrice(p.recent) > TypicalPrice(p.prior)
  }

  /** Equal typical prices never give a buy, and a rise one way is no rise the other way. */
  lemma BuySignalStrict(p: CandlePair)
    ensures TypicalPrice(p.recent) == TypicalPrice(p.prior) ==> !BuySignal(p)
    ensures BuySignal(p) ==> !BuySignal(CandlePair(p.prior, p.recent))
  {
  }
}
