/** The report the program writes to standard output: one line per
    (stock, interval) with the interval's share of the stock's volume, the
    `#` delimiter, then one line per stock with its day high and day low. */
module Output {
  import opened Wrappers
  import opened Orders
  import opened Trades
  import opened Totals
  import opened HighLow
  import opened Aggregation

  /** One line of the report, before numbers are formatted. A percentage
      line carries the two integers its percentage is computed from: the
      pair's volume and the total it is divided by. */
  datatype OutLine =
    | PercentLine(stock: string, interval: int, volume: int, total: int)
    | Delimiter
    | ExtremaLine(stock: string, high: real, low: real)

  /** The number a percentage line shows: its volume as a percentage of its
      total. A zero total makes the float division produce an infinity or a
      NaN instead, so no number is defined then. */
  function Percent(volume: int, total: int): (p: real)
    requires total != 0
  {
    volume as real / total as real * 100.0
  }

  /** Percentages over the same total add like their volumes. */
  lemma PercentAdds(a: int, b: int, total: int)
    requires total != 0
    ensures Percent(a, total) + Percent(b, total) == Percent(a + b, total)
  {
  }

  /** The whole of a total is a hundred percent. */
  lemma WholeIsHundred(total: int)
    requires total != 0
    ensures Percent(total, total) == 100.0
  {
    assert total as real / total as real == 1.0;
  }

  /** One percentage line per key, in the order of `keys`; the total is read
      with `totalVolumes[stock]`, which yields 0 for a stock with no entry. */
  function PercentLines(keys: seq<(string, int)>, byInterval: map<(string, int), int>,
                        totalVolumes: map<string, int>): seq<OutLine>
    requires forall j :: 0 <= j < |keys| ==> keys[j] in byInterval
  {
    seq(|keys|, i requires 0 <= i < |keys| =>
      PercentLine(keys[i].0, keys[i].1, byInterval[keys[i]], ValueOr(totalVolumes, keys[i].0, 0)))
  }

  /** One day high / day low line per stock, in the order of `stocks`. */
  function ExtremaLines(stocks: seq<string>, view: map<string, (real, real)>): seq<OutLine>
    requires forall j :: 0 <= j < |stocks| ==> stocks[j] in view
  {
    seq(|stocks|, i requires 0 <= i < |stocks| => ExtremaLine(stocks[i], view[stocks[i]].0, view[stocks[i]].1))
  }

  /** The percentage lines of the report: one per key of
      totalVolumesByInterval, in the map's ascending key order. */
  ghost function PercentPart(byInterval: map<(string, int), int>, totalVolumes: map<string, int>): seq<OutLine>
  {
    PairsInOrder(byInterval.Keys);
    PercentLines(SortedSeq(byInterval.Keys, KeyLess), byInterval, totalVolumes)
  }

  /** The extrema lines of the report: one per key of highLows, in the map's
      ascending key order. */
  ghost function ExtremaPart(view: map<string, (real, real)>): seq<OutLine>
  {
    StocksInOrder(view.Keys);
    ExtremaLines(SortedSeq(view.Keys, StrLess), view)
  }

  /** The whole report for the three maps: the percentage lines, the
      delimiter, the extrema lines. */
  ghost function Report(byInterval: map<(string, int), int>, totalVolumes: map<string, int>,
                        view: map<string, (real, real)>): seq<OutLine>
  {
    PercentPart(byInterval, totalVolumes) + [Delimiter] + ExtremaPart(view)
  }

  /** Percentage lines for an ascending listing of the keys of
      totalVolumesByInterval: ascending, one per key, each with the pair's
      volume and its stock's total. */
  lemma PercentLinesOfSorted(keys: seq<(string, int)>, byInterval: map<(string, int), int>,
                             totalVolumes: map<string, int>)
    requires StrictlySorted(keys, KeyLess) && forall k :: k in keys <==> k in byInterval
    ensures var ps := PercentLines(keys, byInterval, totalVolumes);
      && |ps| == |keys|
      && (forall i :: 0 <= i < |ps| ==> ps[i].PercentLine? && (ps[i].stock, ps[i].interval) == keys[i])
      && (forall i, j :: 0 <= i < j < |ps| ==>
            KeyLess((ps[i].stock, ps[i].interval), (ps[j].stock, ps[j].interval)))
      && (forall k :: k in byInterval <==> exists i :: 0 <= i < |ps| && (ps[i].stock, ps[i].interval) == k)
      && (forall i :: 0 <= i < |ps| ==>
            && (ps[i].stock, ps[i].interval) in byInterval
            && ps[i].volume == byInterval[(ps[i].stock, ps[i].interval)]
            && ps[i].total == ValueOr(totalVolumes, ps[i].stock, 0))
  {
    var ps := PercentLines(keys, byInterval, totalVolumes);
    assert forall i :: 0 <= i < |ps| ==> (ps[i].stock, ps[i].interval) == keys[i];
    forall k | k in byInterval ensures exists i :: 0 <= i < |ps| && (ps[i].stock, ps[i].interval) == k {
      var i :| 0 <= i < |keys| && keys[i] == k;
      assert (ps[i].stock, ps[i].interval) == k;
    }
  }

  /** Extrema lines for an ascending listing of the stocks: ascending, one
      per stock, each with the stock's day high and day low. */
  lemma ExtremaLinesOfSorted(stocks: seq<string>, view: map<string, (real, real)>)
    requires StrictlySorted(stocks, StrLess) && forall s :: s in stocks <==> s in view
    ensures var es := ExtremaLines(stocks, view);
      && |es| == |stocks|
      && (forall i :: 0 <= i < |es| ==> es[i].ExtremaLine? && es[i].stock == stocks[i])
      && (forall i, j :: 0 <= i < j < |es| ==> StrLess(es[i].stock, es[j].stock))
      && (forall s :: s in view <==> exists i :: 0 <= i < |es| && es[i].stock == s)
      && (forall i :: 0 <= i < |es| ==> es[i].stock in view && (es[i].high, es[i].low) == view[es[i].stock])
  {
    var es := ExtremaLines(stocks, view);
    forall s | s in view ensures exists i :: 0 <= i < |es| && es[i].stock == s {
      var i :| 0 <= i < |stocks| && stocks[i] == s;
      assert es[i].stock == s;
    }
  }

  lemma PercentPartShape(byInterval: map<(string, int), int>, totalVolumes: map<string, int>)
    ensures var ps := PercentPart(byInterval, totalVolumes);
      |ps| == |byInterval.Keys| && forall i :: 0 <= i < |ps| ==> ps[i].PercentLine?
  {
    PairsInOrder(byInterval.Keys);
  }

  lemma ExtremaPartShape(view: map<string, (real, real)>)
    ensures var es := ExtremaPart(view);
      |es| == |view.Keys| && forall i :: 0 <= i < |es| ==> es[i].ExtremaLine?
  {
    StocksInOrder(view.Keys);
  }

  /** Exactly one line of the report is the delimiter: a percentage line
      before it per key of totalVolumesByInterval, an extrema line after it
      per key of highLows. */
  lemma ReportLayout(byInterval: map<(string, int), int>, totalVolumes: map<string, int>,
                     view: map<string, (real, real)>)
    ensures var out, n := Report(byInterval, totalVolumes, view), |byInterval.Keys|;
      && |out| == n + 1 + |view.Keys|
      && (forall i :: 0 <= i < |out| ==>
            && (out[i] == Delimiter <==> i == n)
            && (i < n ==> out[i].PercentLine?)
            && (n < i ==> out[i].ExtremaLine?))
  {
    PercentPartShape(byInterval, totalVolumes);
    ExtremaPartShape(view);
    var ps, es := PercentPart(byInterval, totalVolumes), ExtremaPart(view);
    var out := Report(byInterval, totalVolumes, view);
    forall i | 0 <= i < |out|
      ensures (out[i] == Delimiter <==> i == |ps|) && (i < |ps| ==> out[i].PercentLine?) && (|ps| < i ==> out[i].ExtremaLine?)
    {
      if i < |ps| {
        assert out[i] == ps[i];
      } else if i > |ps| {
        assert out[i] == es[i - |ps| - 1];
      }
    }
  }

  /** The percentage lines come in ascending (stock, interval) order, one per
      key of totalVolumesByInterval and none other, each with the pair's
      volume and its stock's total, the two its percentage is computed
      from. */
  lemma PercentLinesListEveryPair(byInterval: map<(string, int), int>, totalVolumes: map<string, int>)
    ensures var ps := PercentPart(byInterval, totalVolumes);
      && |ps| == |byInterval.Keys|
      && (forall i :: 0 <= i < |ps| ==> ps[i].PercentLine?)
      && (forall i, j :: 0 <= i < j < |ps| ==>
            KeyLess((ps[i].stock, ps[i].interval), (ps[j].stock, ps[j].interval)))
      && (forall k :: k in byInterval <==> exists i :: 0 <= i < |ps| && (ps[i].stock, ps[i].interval) == k)
      && (forall i :: 0 <= i < |ps| ==>
            && (ps[i].stock, ps[i].interval) in byInterval
            && ps[i].volume == byInterval[(ps[i].stock, ps[i].interval)]
            && ps[i].total == ValueOr(totalVolumes, ps[i].stock, 0))
  {
    PairsInOrder(byInterval.Keys);
    PercentLinesOfSorted(SortedSeq(byInterval.Keys, KeyLess), byInterval, totalVolumes);
  }

  /** The extrema lines come in ascending stock order, one per key of
      highLows and none other, each with that stock's day high and day low. */
  lemma ExtremaLinesListEveryStock(view: map<string, (real, real)>)
    ensures var es := ExtremaPart(view);
      && |es| == |view.Keys|
      && (forall i :: 0 <= i < |es| ==> es[i].ExtremaLine?)
      && (forall i, j :: 0 <= i < j < |es| ==> StrLess(es[i].stock, es[j].stock))
      && (forall s :: s in view <==> exists i :: 0 <= i < |es| && es[i].stock == s)
      && (forall i :: 0 <= i < |es| ==> es[i].stock in view && (es[i].high, es[i].low) == view[es[i].stock])
  {
    StocksInOrder(view.Keys);
    ExtremaLinesOfSorted(SortedSeq(view.Keys, StrLess), view);
  }

  /** With no records at all (an empty file, or one whose every line is
      malformed) the report is the delimiter alone. */
  lemma NoRecordsGiveDelimiterOnly(lines: seq<Line>)
    requires Parsed(lines) == []
    ensures var trades := Parsed(lines);
      Report(IntervalTotals(trades), StockTotals(trades), DayExtrema(trades)) == [Delimiter]
  {
    ReportLayout(IntervalTotals([]), StockTotals([]), DayExtrema([]));
  }

  /** The volumes of the percentage lines of stock `s`, added up. */
  ghost function StockLineVolume(out: seq<OutLine>, s: string): int
  {
    if out == [] then 0
    else
      var l := out[|out| - 1];
      StockLineVolume(out[..|out| - 1], s) + (if l.PercentLine? && l.stock == s then l.volume else 0)
  }

  /** The percentages shown on the lines of stock `s` whose total is not
      zero, added up. */
  ghost function StockPercentSum(out: seq<OutLine>, s: string): real
  {
    if out == [] then 0.0
    else
      var l := out[|out| - 1];
      StockPercentSum(out[..|out| - 1], s)
        + (if l.PercentLine? && l.stock == s && l.total != 0 then Percent(l.volume, l.total) else 0.0)
  }

  /** When every line of `s` divides by the same non-zero total, their
      percentages add up to the percentage of their summed volume. */
  lemma {:induction false} CommonTotalPercentSum(out: seq<OutLine>, s: string, total: int)
    requires total != 0
    requires forall i :: 0 <= i < |out| && out[i].PercentLine? && out[i].stock == s ==> out[i].total == total
    ensures StockPercentSum(out, s) == Percent(StockLineVolume(out, s), total)
    decreases |out|
  {
    if out == [] {
      assert Percent(0, total) == 0.0;
    } else {
      var init, l := out[..|out| - 1], out[|out| - 1];
      CommonTotalPercentSum(init, s, total);
      if l.PercentLine? && l.stock == s {
        PercentAdds(StockLineVolume(init, s), l.volume, total);
      }
    }
  }

  /** The intervals of the keys of stock `s`, in the order of `keys`. */
  function IntervalsOf(keys: seq<(string, int)>, s: string): (ivs: seq<int>)
    ensures forall i :: i in ivs <==> (s, i) in keys
  {
    if keys == [] then []
    else
      var k := keys[|keys| - 1];
      IntervalsOf(keys[..|keys| - 1], s) + (if k.0 == s then [k.1] else [])
  }

  lemma {:induction false} IntervalsOfAscend(keys: seq<(string, int)>, s: string)
    requires StrictlySorted(keys, KeyLess)
    ensures Distinct(IntervalsOf(keys, s))
    decreases |keys|
  {
    if keys != [] {
      var init, k := keys[..|keys| - 1], keys[|keys| - 1];
      IntervalsOfAscend(init, s);
      if k.0 == s {
        var ivs := IntervalsOf(init, s);
        forall i | i in ivs ensures i < k.1 {
          var j :| 0 <= j < |init| && init[j] == (s, i);
          assert KeyLess(keys[j], k);
          StrLessIrreflexive(s);
        }
      }
    }
  }

  lemma {:induction false} IntervalVolumeSumSnoc(ds: seq<StockData>, ivs: seq<int>, i: int)
    ensures IntervalVolumeSum(ds, ivs + [i]) == IntervalVolumeSum(ds, ivs) + IntervalVolume(ds, i)
    decreases |ivs|
  {
    if ivs == [] {
      assert [] + [i] == [i];
      assert [i][1..] == [];
    } else {
      assert (ivs + [i])[1..] == ivs[1..] + [i];
      IntervalVolumeSumSnoc(ds, ivs[1..], i);
    }
  }

  /** Over the percentage lines of stock `s`, the volumes add up to the
      volumes of its intervals. */
  lemma {:induction false} PercentLinesVolume(keys: seq<(string, int)>, byInterval: map<(string, int), int>,
                                              totalVolumes: map<string, int>, s: string, ds: seq<StockData>)
    requires forall j :: 0 <= j < |keys| ==> keys[j] in byInterval
    requires forall j :: 0 <= j < |keys| && keys[j].0 == s ==> byInterval[keys[j]] == IntervalVolume(ds, keys[j].1)
    ensures StockLineVolume(PercentLines(keys, byInterval, totalVolumes), s) == IntervalVolumeSum(ds, IntervalsOf(keys, s))
    decreases |keys|
  {
    if keys != [] {
      var init, k := keys[..|keys| - 1], keys[|keys| - 1];
      PercentLinesVolume(init, byInterval, totalVolumes, s, ds);
      var ls := PercentLines(keys, byInterval, totalVolumes);
      assert ls[..|ls| - 1] == PercentLines(init, byInterval, totalVolumes);
      assert ls[|ls| - 1] == PercentLine(k.0, k.1, byInterval[k], ValueOr(totalVolumes, k.0, 0));
      assert keys[..|keys| - 1] == init;
      if k.0 == s {
        assert IntervalsOf(keys, s) == IntervalsOf(init, s) + [k.1];
        IntervalVolumeSumSnoc(ds, IntervalsOf(init, s), k.1);
      } else {
        assert IntervalsOf(keys, s) == IntervalsOf(init, s);
      }
    }
  }

  /** Lines other than percentage lines add nothing to a stock's sum. */
  lemma {:induction false} NoPercentLinesAddNothing(a: seq<OutLine>, b: seq<OutLine>, s: string)
    requires forall i :: 0 <= i < |b| ==> !b[i].PercentLine?
    ensures StockLineVolume(a + b, s) == StockLineVolume(a, s)
    ensures StockPercentSum(a + b, s) == StockPercentSum(a, s)
    decreases |b|
  {
    if b == [] {
      assert a + b == a;
    } else {
      assert (a + b)[..|a + b| - 1] == a + b[..|b| - 1];
      NoPercentLinesAddNothing(a, b[..|b| - 1], s);
    }
  }

  /** The volumes on a stock's percentage lines add up to the stock's total
      volume: every interval of the stock has exactly one line, and the
      interval volumes add up to the stock's total. */
  lemma PercentPartVolume(trades: seq<Trade>, s: string)
    ensures StockLineVolume(PercentPart(IntervalTotals(trades), StockTotals(trades)), s) == Volume(DataOf(trades, s))
  {
    var byInterval, totalVolumes := IntervalTotals(trades), StockTotals(trades);
    var ds := DataOf(trades, s);
    StocksHaveData(trades, s);
    PairsInOrder(byInterval.Keys);
    var keys := SortedSeq(byInterval.Keys, KeyLess);
    forall j | 0 <= j < |keys| && keys[j].0 == s ensures byInterval[keys[j]] == IntervalVolume(ds, keys[j].1) {
      IntervalTotalsAreSums(trades, keys[j]);
    }
    PercentLinesVolume(keys, byInterval, totalVolumes, s, ds);
    var ivs := IntervalsOf(keys, s);
    IntervalsOfAscend(keys, s);
    forall i | i in Intervals(ds) ensures i in ivs {
      IntervalTotalsAreSums(trades, (s, i));
      PairKeysLineUp(trades, (s, i));
    }
    VolumeSplitsByInterval(ds, ivs);
  }

  /** Every percentage line of a stock divides by the stock's total volume. */
  lemma PercentPartTotals(trades: seq<Trade>, s: string)
    ensures var ps := PercentPart(IntervalTotals(trades), StockTotals(trades));
      forall i :: 0 <= i < |ps| && ps[i].PercentLine? && ps[i].stock == s ==> ps[i].total == Volume(DataOf(trades, s))
  {
    PercentLinesListEveryPair(IntervalTotals(trades), StockTotals(trades));
    StockTotalsAreSums(trades, s);
    StocksHaveData(trades, s);
  }

  /** Only the percentage lines count towards a stock's sums: the delimiter
      and the extrema lines add nothing. */
  lemma ReportStockSums(byInterval: map<(string, int), int>, totalVolumes: map<string, int>,
                        view: map<string, (real, real)>, s: string)
    ensures var out, ps := Report(byInterval, totalVolumes, view), PercentPart(byInterval, totalVolumes);
      StockLineVolume(out, s) == StockLineVolume(ps, s) && StockPercentSum(out, s) == StockPercentSum(ps, s)
  {
    ExtremaPartShape(view);
    var ps, es := PercentPart(byInterval, totalVolumes), ExtremaPart(view);
    assert Report(byInterval, totalVolumes, view) == ps + ([Delimiter] + es);
    NoPercentLinesAddNothing(ps, [Delimiter] + es, s);
  }

  /** Every percentage line of a stock in the report divides by the stock's
      total volume. */
  lemma PercentLinesDivideByStockTotal(trades: seq<Trade>, s: string)
    ensures var out := Report(IntervalTotals(trades), StockTotals(trades), DayExtrema(trades));
      forall i :: 0 <= i < |out| && out[i].PercentLine? && out[i].stock == s ==>
        out[i].total == Volume(DataOf(trades, s))
  {
    ReportLayout(IntervalTotals(trades), StockTotals(trades), DayExtrema(trades));
    PercentPartShape(IntervalTotals(trades), StockTotals(trades));
    PercentPartTotals(trades, s);
  }

  /** For a stock whose total volume is not zero, the volumes on its
      percentage lines add up to that total, so the percentages shown for the
      stock add up to exactly 100. */
  lemma PercentagesSumTo100(trades: seq<Trade>, s: string)
    requires Volume(DataOf(trades, s)) != 0
    ensures var out := Report(IntervalTotals(trades), StockTotals(trades), DayExtrema(trades));
      StockLineVolume(out, s) == Volume(DataOf(trades, s)) && StockPercentSum(out, s) == 100.0
  {
    var byInterval, totalVolumes := IntervalTotals(trades), StockTotals(trades);
    var total := Volume(DataOf(trades, s));
    ReportStockSums(byInterval, totalVolumes, DayExtrema(trades), s);
    PercentPartVolume(trades, s);
    PercentPartTotals(trades, s);
    CommonTotalPercentSum(PercentPart(byInterval, totalVolumes), s, total);
    WholeIsHundred(total);
  }

  /** A key more gives one percentage line more, at the end. */
  lemma PercentLinesSnoc(keys: seq<(string, int)>, key: (string, int), byInterval: map<(string, int), int>,
                         totalVolumes: map<string, int>)
    requires key in byInterval && forall j :: 0 <= j < |keys| ==> keys[j] in byInterval
    ensures PercentLines(keys + [key], byInterval, totalVolumes)
         == PercentLines(keys, byInterval, totalVolumes)
            + [PercentLine(key.0, key.1, byInterval[key], ValueOr(totalVolumes, key.0, 0))]
  {
  }

  /** A stock more gives one extrema line more, at the end. */
  lemma ExtremaLinesSnoc(stocks: seq<string>, stock: string, view: map<string, (real, real)>)
    requires stock in view && forall j :: 0 <= j < |stocks| ==> stocks[j] in view
    ensures ExtremaLines(stocks + [stock], view)
         == ExtremaLines(stocks, view) + [ExtremaLine(stock, view[stock].0, view[stock].1)]
  {
  }

  /** Any ascending listing of the keys yields the report: there is only
      one. */
  lemma ReportOfSortedKeys(byInterval: map<(string, int), int>, totalVolumes: map<string, int>,
                           view: map<string, (real, real)>, keys: seq<(string, int)>, stocks: seq<string>)
    requires StrictlySorted(keys, KeyLess) && forall k :: k in keys <==> k in byInterval
    requires StrictlySorted(stocks, StrLess) && forall s :: s in stocks <==> s in view
    ensures Report(byInterval, totalVolumes, view)
         == PercentLines(keys, byInterval, totalVolumes) + [Delimiter] + ExtremaLines(stocks, view)
  {
    PairsInOrder(byInterval.Keys);
    StocksInOrder(view.Keys);
  }

  /** The percentage loop: one line per key of `keys`, in that order. */
  method WritePercentLines(keys: seq<(string, int)>, byInterval: map<(string, int), int>,
                           totalVolumes: map<string, int>)
    returns (out: seq<OutLine>)
    requires forall k :: k in keys ==> k in byInterval
    ensures out == PercentLines(keys, byInterval, totalVolumes)
  {
    out := [];
    for i := 0 to |keys|
      invariant out == PercentLines(keys[..i], byInterval, totalVolumes)
    {
      var key := keys[i];
      var volume, total := byInterval[key], ValueOr(totalVolumes, key.0, 0);
      assert keys[..i + 1] == keys[..i] + [key];
      PercentLinesSnoc(keys[..i], key, byInterval, totalVolumes);
      out := out + [PercentLine(key.0, key.1, volume, total)];
    }
    assert keys[..|keys|] == keys;
  }

  /** The extrema loop: one line per stock of `stocks`, in that order, with
      the bounds its UpperLower holds. */
  method WriteExtremaLines(stocks: seq<string>, highLows: map<string, UpperLower>)
    returns (out: seq<OutLine>)
    requires forall s :: s in stocks ==> s in highLows
    ensures out == ExtremaLines(stocks, ExtremaView(highLows))
  {
    var view := ExtremaView(highLows);
    out := [];
    for j := 0 to |stocks|
      invariant out == ExtremaLines(stocks[..j], view)
    {
      var stock := stocks[j];
      var ul := highLows[stock];
      assert stocks[..j + 1] == stocks[..j] + [stock];
      ExtremaLinesSnoc(stocks[..j], stock, view);
      out := out + [ExtremaLine(stock, ul.upper as real, ul.lower as real)];
    }
    assert stocks[..|stocks|] == stocks;
  }

  /** The three output steps: the percentage lines in the key order of
      totalVolumesByInterval, the delimiter, the extrema lines in the key
      order of highLows. */
  method EmitReport(totalVolumes: map<string, int>, byInterval: map<(string, int), int>,
                    highLows: map<string, UpperLower>)
    returns (out: seq<OutLine>)
    ensures out == Report(byInterval, totalVolumes, ExtremaView(highLows))
  {
    KeyLessIsStrictTotalOrder(byInterval.Keys);
    var keys := InOrder(byInterval.Keys, KeyLess);
    var percent := WritePercentLines(keys, byInterval, totalVolumes);
    StrLessIsStrictTotalOrder(highLows.Keys);
    var stocks := InOrder(highLows.Keys, StrLess);
    var extrema := WriteExtremaLines(stocks, highLows);
    out := percent + [Delimiter] + extrema;
    ReportOfSortedKeys(byInterval, totalVolumes, ExtremaView(highLows), keys, stocks);
  }

  /** The whole program on the lines of the input file: group the records,
      aggregate them, write the report. The report is that of ingesting the
      well-formed lines' records in file order, and one warning is issued
      per malformed line. */
  method Run(lines: seq<Line>) returns (out: seq<OutLine>, warnings: nat)
    ensures var trades := Parsed(lines);
      out == Report(IntervalTotals(trades), StockTotals(trades), DayExtrema(trades))
    ensures warnings == |lines| - |Parsed(lines)|
  {
    var stockMap;
    stockMap, warnings := GroupRecords(lines);
    var totalVolumes, byInterval, highLows := Aggregate(stockMap);
    out := EmitReport(totalVolumes, byInterval, highLows);
    ghost var trades := Parsed(lines);
    forall s ensures DataOf(trades, s) == ValueOr(stockMap, s, []) {
      StocksHaveData(trades, s);
    }
    GroupedTotals(trades, stockMap);
    TotalsDetermined(stockMap, totalVolumes, byInterval, StockTotals(trades), IntervalTotals(trades));
    ExtremaDetermined(stockMap, ExtremaView(highLows), DayExtrema(trades));
  }

  /** HoldsTotals pins both volume maps down completely. */
  lemma TotalsDetermined(seen: map<string, seq<StockData>>, tv1: map<string, int>, bi1: map<(string, int), int>,
                         tv2: map<string, int>, bi2: map<(string, int), int>)
    requires HoldsTotals(seen, tv1, bi1) && HoldsTotals(seen, tv2, bi2)
    ensures tv1 == tv2 && bi1 == bi2
  {
  }

  /** HoldsExtrema pins the extrema map down completely. */
  lemma ExtremaDetermined(seen: map<string, seq<StockData>>, v1: map<string, (real, real)>,
                          v2: map<string, (real, real)>)
    requires HoldsExtrema(seen, v1) && HoldsExtrema(seen, v2)
    ensures v1 == v2
  {
  }
}
