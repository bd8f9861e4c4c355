/** What the program computes from the records of one stock, and from all
    records, stated as functions of the records. */
module Totals {
  import opened Wrappers
  import opened Trades

  /** The larger of `a` and `b`; `b` wins only when strictly greater, as in
      `if (nHigh > nCurUpr)`. */
  function Max(a: real, b: real): (r: real)
    ensures r >= a && r >= b && (r == a || r == b)
  {
    if b > a then b else a
  }

  /** The smaller of `a` and `b`; `b` wins only when strictly smaller. */
  function Min(a: real, b: real): (r: real)
    ensures r <= a && r <= b && (r == a || r == b)
  {
    if b < a then b else a
  }

  /** Total volume of the records. */
  function Volume(ds: seq<StockData>): int
  {
    if ds == [] then 0 else Volume(ds[..|ds| - 1]) + ds[|ds| - 1].volume
  }

  /** Total volume of the records of interval `i`. */
  function IntervalVolume(ds: seq<StockData>, i: int): int
  {
    if ds == [] then 0
    else
      var last := ds[|ds| - 1];
      IntervalVolume(ds[..|ds| - 1], i) + (if last.interval == i then last.volume else 0)
  }

  /** The intervals that occur in the records. */
  function Intervals(ds: seq<StockData>): set<int>
  {
    if ds == [] then {} else Intervals(ds[..|ds| - 1]) + {ds[|ds| - 1].interval}
  }

  /** The running maximum of the highs, started from the lowest float. */
  function DayHigh(ds: seq<StockData>): Price
  {
    if ds == [] then FloatLowest else Max(DayHigh(ds[..|ds| - 1]), ds[|ds| - 1].high)
  }

  /** The running minimum of the lows, started from the largest float. */
  function DayLow(ds: seq<StockData>): Price
  {
    if ds == [] then FloatMax else Min(DayLow(ds[..|ds| - 1]), ds[|ds| - 1].low)
  }

  lemma {:induction false} IntervalsOccur(ds: seq<StockData>, i: int)
    ensures i in Intervals(ds) <==> exists d :: d in ds && d.interval == i
    decreases |ds|
  {
    if ds != [] {
      var init := ds[..|ds| - 1];
      IntervalsOccur(init, i);
      assert ds == init + [ds[|ds| - 1]];
      if exists d :: d in ds && d.interval == i {
        var d :| d in ds && d.interval == i;
        if d != ds[|ds| - 1] {
          assert d in init;
        }
      }
    }
  }

  /** The day high bounds every high and is one of them; with no records it
      is the sentinel. */
  lemma {:induction false} DayHighIsMaximum(ds: seq<StockData>)
    ensures forall d :: d in ds ==> d.high <= DayHigh(ds)
    ensures ds != [] ==> exists d :: d in ds && d.high == DayHigh(ds)
    ensures ds == [] ==> DayHigh(ds) == FloatLowest
    decreases |ds|
  {
    if ds != [] {
      var init, last := ds[..|ds| - 1], ds[|ds| - 1];
      DayHighIsMaximum(init);
      assert ds == init + [last];
      if DayHigh(ds) != last.high {
        assert init != [];
        var d :| d in init && d.high == DayHigh(init);
        assert d in ds;
      }
    }
  }

  /** The day low bounds every low from below and is one of them; with no
      records it is the sentinel. */
  lemma {:induction false} DayLowIsMinimum(ds: seq<StockData>)
    ensures forall d :: d in ds ==> DayLow(ds) <= d.low
    ensures ds != [] ==> exists d :: d in ds && d.low == DayLow(ds)
    ensures ds == [] ==> DayLow(ds) == FloatMax
    decreases |ds|
  {
    if ds != [] {
      var init, last := ds[..|ds| - 1], ds[|ds| - 1];
      DayLowIsMinimum(init);
      assert ds == init + [last];
      if DayLow(ds) != last.low {
        assert init != [];
        var d :| d in init && d.low == DayLow(init);
        assert d in ds;
      }
    }
  }

  /** The sentinels give way to the first record: after one record the day
      high and low are that record's own. */
  lemma FirstRecordReplacesSentinels(d: StockData)
    ensures DayHigh([d]) == d.high && DayLow([d]) == d.low
  {
    assert [d][..0] == [];
  }

  predicate Distinct(ivs: seq<int>)
  {
    forall j, k :: 0 <= j < k < |ivs| ==> ivs[j] != ivs[k]
  }

  /** The interval volumes of the intervals `ivs`, added up. */
  function IntervalVolumeSum(ds: seq<StockData>, ivs: seq<int>): int
  {
    if ivs == [] then 0 else IntervalVolume(ds, ivs[0]) + IntervalVolumeSum(ds, ivs[1..])
  }

  lemma {:induction false} IntervalVolumeSumAppend(ds: seq<StockData>, d: StockData, ivs: seq<int>)
    requires Distinct(ivs)
    ensures IntervalVolumeSum(ds + [d], ivs)
         == IntervalVolumeSum(ds, ivs) + (if d.interval in ivs then d.volume else 0)
    decreases |ivs|
  {
    assert (ds + [d])[..|ds|] == ds;
    if ivs != [] {
      IntervalVolumeSumAppend(ds, d, ivs[1..]);
      assert d.interval in ivs <==> d.interval == ivs[0] || d.interval in ivs[1..];
      if d.interval == ivs[0] {
        assert d.interval !in ivs[1..];
      }
    }
  }

  /** A stock's total volume splits exactly over its intervals: summing the
      interval volumes over any list of distinct intervals that covers those
      that occur gives the stock's total. */
  lemma {:induction false} VolumeSplitsByInterval(ds: seq<StockData>, ivs: seq<int>)
    requires Distinct(ivs)
    requires forall i :: i in Intervals(ds) ==> i in ivs
    ensures IntervalVolumeSum(ds, ivs) == Volume(ds)
    decreases |ds|
  {
    if ds == [] {
      ZeroIntervalVolumeSum(ivs);
    } else {
      var init, last := ds[..|ds| - 1], ds[|ds| - 1];
      assert ds == init + [last];
      VolumeSplitsByInterval(init, ivs);
      IntervalVolumeSumAppend(init, last, ivs);
    }
  }

  lemma {:induction false} ZeroIntervalVolumeSum(ivs: seq<int>)
    ensures IntervalVolumeSum([], ivs) == 0
    decreases |ivs|
  {
    if ivs != [] {
      ZeroIntervalVolumeSum(ivs[1..]);
    }
  }

  /** A stock seen in one interval only has all its volume in that interval. */
  lemma SingleIntervalHoldsAll(ds: seq<StockData>, i: int)
    requires Intervals(ds) <= {i}
    ensures IntervalVolume(ds, i) == Volume(ds)
  {
    VolumeSplitsByInterval(ds, [i]);
  }

  // The whole input, as the three maps the program fills, built by ingesting
  // the records one at a time: each record adds to its own entries only,
  // starting from zero or from the sentinels when the key is new.

  /** totalVolumes: total volume per stock. */
  function StockTotals(trades: seq<Trade>): map<string, int>
  {
    if trades == [] then map[]
    else
      var m, t := StockTotals(trades[..|trades| - 1]), trades[|trades| - 1];
      m[t.stock := ValueOr(m, t.stock, 0) + t.data.volume]
  }

  /** totalVolumesByInterval: total volume per (stock, interval). */
  function IntervalTotals(trades: seq<Trade>): map<(string, int), int>
  {
    if trades == [] then map[]
    else
      var m, t := IntervalTotals(trades[..|trades| - 1]), trades[|trades| - 1];
      var k := (t.stock, t.data.interval as int);
      m[k := ValueOr(m, k, 0) + t.data.volume]
  }

  /** highLows: (day high, day low) per stock. */
  function DayExtrema(trades: seq<Trade>): map<string, (real, real)>
  {
    if trades == [] then map[]
    else
      var m, t := DayExtrema(trades[..|trades| - 1]), trades[|trades| - 1];
      var e := ValueOr(m, t.stock, (FloatLowest, FloatMax));
      m[t.stock := (Max(e.0, t.data.high), Min(e.1, t.data.low))]
  }

  /** The (stock, interval) pairs named by at least one record. */
  function PairKeys(trades: seq<Trade>): set<(string, int)>
  {
    if trades == [] then {}
    else
      var last := trades[|trades| - 1];
      PairKeys(trades[..|trades| - 1]) + {(last.stock, last.data.interval as int)}
  }

  /** A pair is a key exactly when its stock is a key and its interval occurs
      among that stock's records. */
  lemma {:induction false} PairKeysLineUp(trades: seq<Trade>, k: (string, int))
    ensures k in PairKeys(trades) <==> k.0 in Stocks(trades) && k.1 in Intervals(DataOf(trades, k.0))
    decreases |trades|
  {
    if trades != [] {
      var init, last := trades[..|trades| - 1], trades[|trades| - 1];
      PairKeysLineUp(init, k);
      StocksHaveData(init, k.0);
      var ds := DataOf(init, k.0);
      if ds == [] {
        assert Intervals(ds) == {};
      }
      assert PairKeys(trades) == PairKeys(init) + {(last.stock, last.data.interval as int)};
      assert Stocks(trades) == Stocks(init) + {last.stock};
      if last.stock == k.0 {
        assert DataOf(trades, k.0) == ds + [last.data];
        assert (ds + [last.data])[..|ds|] == ds;
        assert Intervals(DataOf(trades, k.0)) == Intervals(ds) + {last.data.interval as int};
        assert k == (last.stock, last.data.interval as int) <==> k.1 == last.data.interval as int;
      } else {
        assert DataOf(trades, k.0) == ds;
      }
    }
  }

  /** Ingesting record by record yields, for every stock named by some
      record and for no other, the total volume of that stock's records. */
  lemma {:induction false} StockTotalsAreSums(trades: seq<Trade>, s: string)
    ensures s in StockTotals(trades) <==> s in Stocks(trades)
    ensures s in StockTotals(trades) ==> StockTotals(trades)[s] == Volume(DataOf(trades, s))
    decreases |trades|
  {
    if trades != [] {
      var init, t := trades[..|trades| - 1], trades[|trades| - 1];
      StockTotalsAreSums(init, s);
      StocksHaveData(init, s);
      if t.stock == s {
        var ds := DataOf(init, s);
        assert DataOf(trades, s) == ds + [t.data];
        VolumeAppend(ds, t.data);
        assert ValueOr(StockTotals(init), s, 0) == Volume(ds);
      } else {
        assert DataOf(trades, s) == DataOf(init, s);
      }
    }
  }

  /** Ingesting record by record yields, for every (stock, interval) pair
      named by some record and for no other, the total volume of that
      stock's records in that interval. */
  lemma {:induction false} IntervalTotalsAreSums(trades: seq<Trade>, k: (string, int))
    ensures k in IntervalTotals(trades) <==> k in PairKeys(trades)
    ensures k in IntervalTotals(trades) ==> IntervalTotals(trades)[k] == IntervalVolume(DataOf(trades, k.0), k.1)
    decreases |trades|
  {
    if trades != [] {
      var init, t := trades[..|trades| - 1], trades[|trades| - 1];
      var kt := (t.stock, t.data.interval as int);
      IntervalTotalsAreSums(init, k);
      assert PairKeys(trades) == PairKeys(init) + {kt};
      var ds := DataOf(init, k.0);
      if t.stock == k.0 {
        assert DataOf(trades, k.0) == ds + [t.data];
        IntervalVolumeAppend(ds, t.data, k.1);
        if k == kt {
          if k !in PairKeys(init) {
            PairKeysLineUp(init, k);
            StocksHaveData(init, k.0);
            if ds != [] {
              IntervalsOccur(ds, k.1);
              IntervalVolumeAbsent(ds, k.1);
            }
          }
          assert ValueOr(IntervalTotals(init), k, 0) == IntervalVolume(ds, k.1);
        }
      } else {
        assert DataOf(trades, k.0) == ds;
      }
    }
  }

  lemma IntervalVolumeAppend(ds: seq<StockData>, d: StockData, i: int)
    ensures IntervalVolume(ds + [d], i) == IntervalVolume(ds, i) + (if d.interval == i then d.volume else 0)
  {
    assert (ds + [d])[..|ds|] == ds;
  }

  /** Ingesting record by record yields, for every stock named by some
      record and for no other, its day high and day low. */
  lemma {:induction false} DayExtremaAreRunningExtrema(trades: seq<Trade>, s: string)
    ensures s in DayExtrema(trades) <==> s in Stocks(trades)
    ensures s in DayExtrema(trades) ==>
      DayExtrema(trades)[s] == (DayHigh(DataOf(trades, s)) as real, DayLow(DataOf(trades, s)) as real)
    decreases |trades|
  {
    if trades != [] {
      var init, t := trades[..|trades| - 1], trades[|trades| - 1];
      DayExtremaAreRunningExtrema(init, s);
      StocksHaveData(init, s);
      var ds := DataOf(init, s);
      if t.stock == s {
        assert DataOf(trades, s) == ds + [t.data];
        assert (ds + [t.data])[..|ds|] == ds;
        assert ValueOr(DayExtrema(init), s, (FloatLowest, FloatMax)) == (DayHigh(ds) as real, DayLow(ds) as real);
      } else {
        assert DataOf(trades, s) == ds;
      }
    }
  }

  lemma VolumeAppend(ds: seq<StockData>, d: StockData)
    ensures Volume(ds + [d]) == Volume(ds) + d.volume
  {
    assert (ds + [d])[..|ds|] == ds;
  }

  /** One more record of a stock: how each per-stock quantity moves. */
  lemma RecordExtends(ds: seq<StockData>, d: StockData)
    ensures Volume(ds + [d]) == Volume(ds) + d.volume
    ensures DayHigh(ds + [d]) == Max(DayHigh(ds), d.high)
    ensures DayLow(ds + [d]) == Min(DayLow(ds), d.low)
    ensures Intervals(ds + [d]) == Intervals(ds) + {d.interval as int}
    ensures forall i :: IntervalVolume(ds + [d], i) == IntervalVolume(ds, i) + (if d.interval == i then d.volume else 0)
    ensures d.interval !in Intervals(ds) ==> IntervalVolume(ds, d.interval) == 0
  {
    assert (ds + [d])[..|ds|] == ds;
    if d.interval !in Intervals(ds) {
      IntervalsOccur(ds, d.interval);
      IntervalVolumeAbsent(ds, d.interval);
    }
  }

  lemma {:induction false} IntervalVolumeAbsent(ds: seq<StockData>, i: int)
    requires forall d :: d in ds ==> d.interval != i
    ensures IntervalVolume(ds, i) == 0
    decreases |ds|
  {
    if ds != [] {
      assert forall d :: d in ds[..|ds| - 1] ==> d in ds;
      IntervalVolumeAbsent(ds[..|ds| - 1], i);
    }
  }
}
