/** The example input of the program's documentation, worked through. */
module Example {
  import opened Orders
  import opened Trades
  import opened Totals
  import opened Aggregation
  import opened Output

  /** The four records of the documented example input, in file order. */
  function ExampleTrades(): seq<Trade>
  {
    [ Trade("VOD.L", StockData(1, 100, 184.0, 183.7)),
      Trade("BT.LN", StockData(1, 300, 449.4, 448.2)),
      Trade("VOD.L", StockData(2, 25, 184.1, 182.4)),
      Trade("BT.LN", StockData(2, 900, 449.8, 449.5)) ]
  }

  /** Ingesting the example records one by one. */
  lemma ExampleMaps()
    ensures Ingested(ExampleTrades(), ExampleStockTotals(), ExampleIntervalTotals(), ExampleExtrema())
  {
    var ts := ExampleTrades();
    var t0, t1, t2, t3 := ts[0], ts[1], ts[2], ts[3];
    assert "VOD.L" != "BT.LN";
    assert Ingested([], map[], map[], map[]);
    IngestStep([], t0, map[], map[], map[]);
    assert [] + [t0] == [t0];
    IngestStep([t0], t1, map["VOD.L" := 100], map[("VOD.L", 1) := 100], map["VOD.L" := (184.0, 183.7)]);
    assert [t0] + [t1] == [t0, t1];
    IngestStep([t0, t1], t2, map["VOD.L" := 100, "BT.LN" := 300], map[("VOD.L", 1) := 100, ("BT.LN", 1) := 300],
               map["VOD.L" := (184.0, 183.7), "BT.LN" := (449.4, 448.2)]);
    assert [t0, t1] + [t2] == [t0, t1, t2];
    IngestStep([t0, t1, t2], t3, map["VOD.L" := 125, "BT.LN" := 300],
               map[("VOD.L", 1) := 100, ("BT.LN", 1) := 300, ("VOD.L", 2) := 25],
               map["VOD.L" := (184.1, 182.4), "BT.LN" := (449.4, 448.2)]);
    assert [t0, t1, t2] + [t3] == ts;
  }

  /** "BT.LN" sorts before "VOD.L", so both stocks' keys come in this order. */
  lemma ExampleKeysAscend()
    ensures StrictlySorted(ExampleKeys(), KeyLess)
    ensures StrictlySorted(["BT.LN", "VOD.L"], StrLess)
  {
    assert StrLess("BT.LN", "VOD.L");
    StrLessIrreflexive("BT.LN");
    StrLessIrreflexive("VOD.L");
  }

  /** The (stock, interval) keys of the example, in ascending order. */
  function ExampleKeys(): seq<(string, int)>
  {
    [("BT.LN", 1), ("BT.LN", 2), ("VOD.L", 1), ("VOD.L", 2)]
  }

  /** totalVolumesByInterval after the example input. */
  function ExampleIntervalTotals(): map<(string, int), int>
  {
    map[("VOD.L", 1) := 100, ("BT.LN", 1) := 300, ("VOD.L", 2) := 25, ("BT.LN", 2) := 900]
  }

  /** totalVolumes after the example input. */
  function ExampleStockTotals(): map<string, int>
  {
    map["VOD.L" := 125, "BT.LN" := 1200]
  }

  /** The day high and day low per stock after the example input. */
  function ExampleExtrema(): map<string, (real, real)>
  {
    map["VOD.L" := (184.1, 182.4), "BT.LN" := (449.8, 448.2)]
  }

  /** The ascending listings hold exactly the keys of the maps. */
  lemma ExampleKeysListed()
    ensures forall k :: k in ExampleKeys() <==> k in ExampleIntervalTotals()
    ensures forall s :: s in ["BT.LN", "VOD.L"] <==> s in ExampleExtrema()
  {
  }

  /** The percentage lines for the example keys, before formatting: each
      carries its volume and its stock's total. */
  lemma ExamplePercentLines()
    ensures PercentLines(ExampleKeys(), ExampleIntervalTotals(), ExampleStockTotals())
         == [ PercentLine("BT.LN", 1, 300, 1200), PercentLine("BT.LN", 2, 900, 1200),
              PercentLine("VOD.L", 1, 100, 125), PercentLine("VOD.L", 2, 25, 125) ]
  {
  }

  /** The extrema lines for the example stocks. */
  lemma ExampleExtremaLines()
    ensures ExtremaLines(["BT.LN", "VOD.L"], ExampleExtrema())
         == [ExtremaLine("BT.LN", 449.8, 448.2), ExtremaLine("VOD.L", 184.1, 182.4)]
  {
  }

  /** The report of the documented example: the lines come sorted by stock
      and then interval (BT.LN before VOD.L), not in the input order the
      documentation shows. The percentages shown are 25, 75, 80 and 20. */
  lemma ExampleReport()
    ensures var ts := ExampleTrades();
      Report(IntervalTotals(ts), StockTotals(ts), DayExtrema(ts))
      == [ PercentLine("BT.LN", 1, 300, 1200), PercentLine("BT.LN", 2, 900, 1200),
           PercentLine("VOD.L", 1, 100, 125), PercentLine("VOD.L", 2, 25, 125),
           Delimiter,
           ExtremaLine("BT.LN", 449.8, 448.2), ExtremaLine("VOD.L", 184.1, 182.4) ]
    ensures Percent(300, 1200) == 25.0 && Percent(900, 1200) == 75.0
    ensures Percent(100, 125) == 80.0 && Percent(25, 125) == 20.0
  {
    ExampleMaps();
    ExampleKeysAscend();
    ExampleKeysListed();
    ReportOfSortedKeys(ExampleIntervalTotals(), ExampleStockTotals(), ExampleExtrema(), ExampleKeys(), ["BT.LN", "VOD.L"]);
    ExamplePercentLines();
    ExampleExtremaLines();
  }
}
