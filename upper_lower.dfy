/** CUpperLower: the running day high and day low kept for one stock. */
module HighLow {
  import opened Trades
  import opened Totals

  class UpperLower {
    /** nCurLwr: the lowest low seen so far. */
    var lower: Price
    /** nCurUpr: the highest high seen so far. */
    var upper: Price

    /** Starts from the sentinels: the largest float as the low and the
        lowest float as the high, so that the first Add replaces both. */
    constructor ()
      ensures lower == FloatMax && upper == FloatLowest
    {
      lower := FloatMax;
      upper := FloatLowest;
    }

    /** Folds one record's high and low in: the high never goes down, the
        low never goes up, and each ends as the max (min) of before and new. */
    method Add(high: Price, low: Price)
      modifies this
      ensures upper == Max(old(upper), high) && lower == Min(old(lower), low)
      ensures old(upper) <= upper && lower <= old(lower)
    {
      if high > upper {
        upper := high;
      }
      if low < lower {
        lower := low;
      }
    }
  }

  /** The sentinels are the extreme prices, so whatever a first record holds
      replaces them. */
  lemma SentinelsGiveWay(high: Price, low: Price)
    ensures Max(FloatLowest, high) == high && Min(FloatMax, low) == low
  {
  }
}
