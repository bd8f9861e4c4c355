/** Reading the lines into stockMap and the nested loops that fill
    totalVolumes, totalVolumesByInterval and highLows. */
module Aggregation {
  import opened Wrappers
  import opened Orders
  import opened Trades
  import opened Totals
  import opened HighLow

  /** stockMap after the records `trades` have been pushed back, one at a
      time, onto their stocks' vectors. */
  ghost function Grouped(trades: seq<Trade>): map<string, seq<StockData>>
  {
    if trades == [] then map[]
    else
      var m, t := Grouped(trades[..|trades| - 1]), trades[|trades| - 1];
      m[t.stock := ValueOr(m, t.stock, []) + [t.data]]
  }

  /** Pushing back record by record files every record under its stock, in
      order: the vectors are exactly the per-stock records, and only stocks
      with records get one. */
  lemma {:induction false} GroupedHoldsData(trades: seq<Trade>, s: string)
    ensures s in Grouped(trades) <==> s in Stocks(trades)
    ensures s in Grouped(trades) ==> Grouped(trades)[s] == DataOf(trades, s) && DataOf(trades, s) != []
    decreases |trades|
  {
    if trades != [] {
      var init, t := trades[..|trades| - 1], trades[|trades| - 1];
      GroupedHoldsData(init, s);
      StocksHaveData(init, s);
      if t.stock != s {
        assert DataOf(trades, s) == DataOf(init, s);
      }
    }
  }

  /** One more line: a well-formed one adds its record, a malformed one
      nothing. */
  lemma ParsedStep(lines: seq<Line>, k: nat)
    requires k < |lines|
    ensures Parsed(lines[..k + 1]) == Parsed(lines[..k]) + (match ParseLine(lines[k]) case Some(t) => [t] case None => [])
  {
    assert lines[..k + 1][..k] == lines[..k];
  }

  /** Reads every line; one that parses is appended to its stock's vector,
      one that does not is skipped with a warning. */
  method GroupRecords(lines: seq<Line>) returns (stockMap: map<string, seq<StockData>>, skipped: nat)
    ensures forall s :: s in stockMap <==> s in Stocks(Parsed(lines))
    ensures forall s :: s in stockMap ==> stockMap[s] == DataOf(Parsed(lines), s) && stockMap[s] != []
    ensures skipped == |lines| - |Parsed(lines)|
  {
    stockMap, skipped := map[], 0;
    for k := 0 to |lines|
      invariant stockMap == Grouped(Parsed(lines[..k]))
      invariant skipped == k - |Parsed(lines[..k])|
    {
      ParsedStep(lines, k);
      ghost var before := Parsed(lines[..k]);
      match ParseLine(lines[k]) {
        case None =>
          assert Parsed(lines[..k + 1]) == before;
          skipped := skipped + 1;
        case Some(t) =>
          assert Parsed(lines[..k + 1]) == before + [t];
          assert (before + [t])[..|before|] == before;
          stockMap := stockMap[t.stock := ValueOr(stockMap, t.stock, []) + [t.data]];
      }
    }
    assert lines[..|lines|] == lines;
    forall s ensures s in stockMap <==> s in Stocks(Parsed(lines)) {
      GroupedHoldsData(Parsed(lines), s);
    }
    forall s | s in stockMap ensures stockMap[s] == DataOf(Parsed(lines), s) && stockMap[s] != [] {
      GroupedHoldsData(Parsed(lines), s);
    }
  }

  /** What the two volume maps hold after the records in `seen` (per stock,
      in order) have been added: a stock's total exactly for the stocks with
      at least one record, a pair's total exactly for the intervals that
      occur among that stock's records. */
  ghost predicate HoldsTotals(seen: map<string, seq<StockData>>, totalVolumes: map<string, int>,
                              byInterval: map<(string, int), int>)
  {
    && (forall s :: s in totalVolumes <==> s in seen && seen[s] != [])
    && (forall s :: s in totalVolumes ==> totalVolumes[s] == Volume(seen[s]))
    && (forall k :: k in byInterval <==> k.0 in seen && k.1 in Intervals(seen[k.0]))
    && (forall k :: k in byInterval ==> byInterval[k] == IntervalVolume(seen[k.0], k.1))
  }

  /** The day high and day low that highLows holds per stock. */
  function ExtremaView(highLows: map<string, UpperLower>): (view: map<string, (real, real)>)
    reads highLows.Values
    ensures view.Keys == highLows.Keys
  {
    map s | s in highLows :: (highLows[s].upper as real, highLows[s].lower as real)
  }

  /** What highLows holds after the records in `seen` have been added: the
      day high and day low exactly for the stocks with at least one record. */
  ghost predicate HoldsExtrema(seen: map<string, seq<StockData>>, view: map<string, (real, real)>)
  {
    && (forall s :: s in view <==> s in seen && seen[s] != [])
    && (forall s :: s in view ==> view[s] == (DayHigh(seen[s]) as real, DayLow(seen[s]) as real))
  }

  /** Ingesting the records in any order that keeps each stock's records in
      their own order yields the maps that HoldsTotals and HoldsExtrema
      describe for the grouped records. */
  lemma GroupedTotals(trades: seq<Trade>, stockMap: map<string, seq<StockData>>)
    requires forall s :: DataOf(trades, s) == ValueOr(stockMap, s, [])
    ensures HoldsTotals(stockMap, StockTotals(trades), IntervalTotals(trades))
    ensures HoldsExtrema(stockMap, DayExtrema(trades))
  {
    forall s ensures s in StockTotals(trades) <==> s in stockMap && stockMap[s] != [] {
      StockTotalsAreSums(trades, s);
      StocksHaveData(trades, s);
    }
    forall s | s in StockTotals(trades) ensures StockTotals(trades)[s] == Volume(stockMap[s]) {
      StockTotalsAreSums(trades, s);
      StocksHaveData(trades, s);
    }
    forall k ensures k in IntervalTotals(trades) <==> k.0 in stockMap && k.1 in Intervals(stockMap[k.0]) {
      IntervalTotalsAreSums(trades, k);
      PairKeysLineUp(trades, k);
      StocksHaveData(trades, k.0);
    }
    forall k | k in IntervalTotals(trades)
      ensures IntervalTotals(trades)[k] == IntervalVolume(stockMap[k.0], k.1)
    {
      IntervalTotalsAreSums(trades, k);
      PairKeysLineUp(trades, k);
      StocksHaveData(trades, k.0);
    }
    forall s ensures s in DayExtrema(trades) <==> s in stockMap && stockMap[s] != [] {
      DayExtremaAreRunningExtrema(trades, s);
      StocksHaveData(trades, s);
    }
    forall s | s in DayExtrema(trades)
      ensures DayExtrema(trades)[s] == (DayHigh(stockMap[s]) as real, DayLow(stockMap[s]) as real)
    {
      DayExtremaAreRunningExtrema(trades, s);
      StocksHaveData(trades, s);
    }
  }

  /** Each stock has its own UpperLower object. */
  ghost predicate OwnObjects(highLows: map<string, UpperLower>)
  {
    forall a, b :: a in highLows && b in highLows && a != b ==> highLows[a] != highLows[b]
  }

  /** The body of the inner loop for one record: add its volume to its
      stock's total and to its (stock, interval) total, each starting from
      zero when absent, and fold its prices into its stock's UpperLower,
      default-constructed when absent. This is ingesting the record: the
      three maps move exactly as StockTotals, IntervalTotals and DayExtrema
      do when the record is appended. No other entry changes. */
  method AddRecord(stock: string, data: StockData, totalVolumes: map<string, int>,
                   byInterval: map<(string, int), int>, highLows: map<string, UpperLower>)
    returns (totalVolumes': map<string, int>, byInterval': map<(string, int), int>,
             highLows': map<string, UpperLower>)
    requires OwnObjects(highLows)
    modifies if stock in highLows then {highLows[stock]} else {}
    ensures totalVolumes' == totalVolumes[stock := ValueOr(totalVolumes, stock, 0) + data.volume]
    ensures byInterval' == byInterval[(stock, data.interval as int) :=
                                      ValueOr(byInterval, (stock, data.interval as int), 0) + data.volume]
    ensures
      var e := ValueOr(old(ExtremaView(highLows)), stock, (FloatLowest, FloatMax));
      ExtremaView(highLows') == old(ExtremaView(highLows))[stock := (Max(e.0, data.high), Min(e.1, data.low))]
    ensures OwnObjects(highLows')
    ensures forall s :: s in highLows ==> s in highLows' && highLows'[s] == highLows[s]
    ensures forall s :: s in highLows' && s !in highLows ==> fresh(highLows'[s])
  {
    totalVolumes' := totalVolumes[stock := ValueOr(totalVolumes, stock, 0) + data.volume];
    var key := (stock, data.interval as int);
    byInterval' := byInterval[key := ValueOr(byInterval, key, 0) + data.volume];
    highLows' := highLows;
    if stock !in highLows {
      var created := new UpperLower();
      highLows' := highLows[stock := created];
    }
    highLows'[stock].Add(data.high, data.low);
  }

  /** The three maps are those of ingesting `trades`. */
  ghost predicate Ingested(trades: seq<Trade>, totalVolumes: map<string, int>,
                           byInterval: map<(string, int), int>, view: map<string, (real, real)>)
  {
    totalVolumes == StockTotals(trades) && byInterval == IntervalTotals(trades) && view == DayExtrema(trades)
  }

  /** Ingesting one more record moves the three maps by one AddRecord. */
  lemma IngestStep(trades: seq<Trade>, t: Trade, totalVolumes: map<string, int>,
                   byInterval: map<(string, int), int>, view: map<string, (real, real)>)
    requires Ingested(trades, totalVolumes, byInterval, view)
    ensures var key, e := (t.stock, t.data.interval as int), ValueOr(view, t.stock, (FloatLowest, FloatMax));
      Ingested(trades + [t], totalVolumes[t.stock := ValueOr(totalVolumes, t.stock, 0) + t.data.volume],
               byInterval[key := ValueOr(byInterval, key, 0) + t.data.volume],
               view[t.stock := (Max(e.0, t.data.high), Min(e.1, t.data.low))])
  {
    assert (trades + [t])[..|trades|] == trades;
  }

  /** Appending one record of `stock` to the records seen extends that
      stock's records by it and leaves every other stock's as they were. */
  lemma RegroupStep(before: seq<Trade>, after: seq<Trade>, stock: string, ds: seq<StockData>, data: StockData)
    requires forall t :: DataOf(after, t) == DataOf(before, t) + (if t == stock then ds else [])
    ensures forall t :: DataOf(after + [Trade(stock, data)], t) == DataOf(before, t) + (if t == stock then ds + [data] else [])
  {
    forall t ensures DataOf(after + [Trade(stock, data)], t) == DataOf(before, t) + (if t == stock then ds + [data] else []) {
      DataOfAppend(after, Trade(stock, data), t);
    }
  }

  /** The records seen hold, for each stock of `taken`, exactly its vector
      of stockMap, and nothing for any other stock. */
  ghost predicate GroupedFor(seen: seq<Trade>, stockMap: map<string, seq<StockData>>, taken: set<string>)
  {
    forall t :: DataOf(seen, t) == if t in taken then ValueOr(stockMap, t, []) else []
  }

  /** A stock not yet taken has no entry among the day extrema. */
  lemma NotYetSeen(seen: seq<Trade>, stockMap: map<string, seq<StockData>>, taken: set<string>, stock: string)
    requires GroupedFor(seen, stockMap, taken) && stock !in taken
    ensures stock !in DayExtrema(seen)
  {
    DayExtremaAreRunningExtrema(seen, stock);
    StocksHaveData(seen, stock);
  }

  /** `taken` holds exactly the first `x` stocks of the listing. */
  ghost predicate TakenUpTo(stocks: seq<string>, taken: set<string>, x: nat)
  {
    forall i :: 0 <= i < |stocks| ==> (stocks[i] in taken <==> i < x)
  }

  /** In a strictly ascending listing the next stock is not yet taken, and
      taking it advances the listing by one. */
  lemma TakeNext(stocks: seq<string>, taken: set<string>, x: nat)
    requires StrictlySorted(stocks, StrLess) && x < |stocks| && TakenUpTo(stocks, taken, x)
    ensures stocks[x] !in taken && TakenUpTo(stocks, taken + {stocks[x]}, x + 1)
  {
    forall i | 0 <= i < |stocks| && i != x ensures stocks[i] != stocks[x] {
      StrLessIrreflexive(stocks[x]);
    }
  }

  /** Once every stock is taken, the maps of ingesting the records seen
      hold the totals and extrema of stockMap. */
  lemma AllGrouped(seen: seq<Trade>, stockMap: map<string, seq<StockData>>, taken: set<string>,
                   totalVolumes: map<string, int>, byInterval: map<(string, int), int>,
                   view: map<string, (real, real)>)
    requires GroupedFor(seen, stockMap, taken) && taken == stockMap.Keys
    requires Ingested(seen, totalVolumes, byInterval, view)
    ensures HoldsTotals(stockMap, totalVolumes, byInterval) && HoldsExtrema(stockMap, view)
  {
    assert forall t :: DataOf(seen, t) == ValueOr(stockMap, t, []);
    GroupedTotals(seen, stockMap);
  }

  /** After a stock's records are appended, the records seen are grouped
      for one more stock. */
  lemma RegroupStock(before: seq<Trade>, after: seq<Trade>, stock: string, taken: set<string>,
                     stockMap: map<string, seq<StockData>>)
    requires stock in stockMap && stock !in taken
    requires GroupedFor(before, stockMap, taken)
    requires forall t :: DataOf(after, t) == DataOf(before, t) + (if t == stock then stockMap[stock] else [])
    ensures GroupedFor(after, stockMap, taken + {stock})
  {
    forall t ensures DataOf(after, t) == if t in taken + {stock} then ValueOr(stockMap, t, []) else [] {
    }
  }

  /** The inner loop for one stock: AddRecord for each of its records, in
      order. Before it the stock has no entries; afterwards the maps are
      those of ingesting a sequence of records that holds, for this stock,
      its records in order and, for every other stock, what it held before. */
  method AddStockRecords(stock: string, dataList: seq<StockData>, totalVolumes: map<string, int>,
                         byInterval: map<(string, int), int>, highLows: map<string, UpperLower>,
                         ghost before: seq<Trade>)
    returns (totalVolumes': map<string, int>, byInterval': map<(string, int), int>,
             highLows': map<string, UpperLower>, ghost after: seq<Trade>)
    requires stock !in highLows && OwnObjects(highLows)
    requires Ingested(before, totalVolumes, byInterval, ExtremaView(highLows))
    ensures Ingested(after, totalVolumes', byInterval', ExtremaView(highLows'))
    ensures forall t :: DataOf(after, t) == DataOf(before, t) + (if t == stock then dataList else [])
    ensures OwnObjects(highLows')
  {
    totalVolumes', byInterval', highLows', after := totalVolumes, byInterval, highLows, before;
    for y := 0 to |dataList|
      invariant Ingested(after, totalVolumes', byInterval', ExtremaView(highLows'))
      invariant forall t :: DataOf(after, t) == DataOf(before, t) + (if t == stock then dataList[..y] else [])
      invariant OwnObjects(highLows')
      invariant stock in highLows' ==> fresh(highLows'[stock])
    {
      var data := dataList[y];
      assert dataList[..y + 1] == dataList[..y] + [data];
      RegroupStep(before, after, stock, dataList[..y], data);
      IngestStep(after, Trade(stock, data), totalVolumes', byInterval', ExtremaView(highLows'));
      totalVolumes', byInterval', highLows' := AddRecord(stock, data, totalVolumes', byInterval', highLows');
      after := after + [Trade(stock, data)];
    }
    assert dataList[..|dataList|] == dataList;
  }

  /** The nested loops: for each stock in key order, for each of its records
      in order, AddRecord. Afterwards the maps hold, for every stock with
      records, its total volume and its day high and low, and for every
      (stock, interval) that occurs, its total volume; each stock has its
      own UpperLower. */
  method Aggregate(stockMap: map<string, seq<StockData>>)
    returns (totalVolumes: map<string, int>, byInterval: map<(string, int), int>,
             highLows: map<string, UpperLower>)
    ensures HoldsTotals(stockMap, totalVolumes, byInterval)
    ensures HoldsExtrema(stockMap, ExtremaView(highLows))
    ensures OwnObjects(highLows)
  {
    StrLessIsStrictTotalOrder(stockMap.Keys);
    var stocks := InOrder(stockMap.Keys, StrLess);
    totalVolumes, byInterval, highLows := map[], map[], map[];
    ghost var done: seq<Trade>, taken: set<string> := [], {};
    for x := 0 to |stocks|
      invariant Ingested(done, totalVolumes, byInterval, ExtremaView(highLows))
      invariant OwnObjects(highLows)
      invariant GroupedFor(done, stockMap, taken)
      invariant TakenUpTo(stocks, taken, x) && taken <= stockMap.Keys
    {
      var stock := stocks[x];
      TakeNext(stocks, taken, x);
      NotYetSeen(done, stockMap, taken, stock);
      ghost var before := done;
      totalVolumes, byInterval, highLows, done :=
        AddStockRecords(stock, stockMap[stock], totalVolumes, byInterval, highLows, done);
      RegroupStock(before, done, stock, taken, stockMap);
      taken := taken + {stock};
    }
    assert taken == stockMap.Keys;
    AllGrouped(done, stockMap, taken, totalVolumes, byInterval, ExtremaView(highLows));
  }
}
