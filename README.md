# VWAPer volume and high/low aggregation, modelled in Dafny

VWAPer (`stockmain.cpp`) reads a file of trade records. Each line holds
`stock interval volume high low`, separated by whitespace. The program:

1. Files every well-formed line under its stock in `stockMap`. A malformed
   line is skipped with a warning.
2. Walks `stockMap` in key order and fills three ordered maps:
   - `totalVolumes`: the volume per stock;
   - `totalVolumesByInterval`: the volume per (stock, interval);
   - `highLows`: one `CUpperLower` per stock, holding the running day high
     and day low.
3. Prints one percentage line per (stock, interval), then `#`, then one
   "day high, day low" line per stock.

The model follows the code's own form:

- `CUpperLower` becomes the class `HighLow.UpperLower`. Its fields are
  updated in place by `Add`.
- The reading loop is the method `Aggregation.GroupRecords`.
- The nested aggregation loops are `Aggregation.Aggregate`, with
  `Aggregation.AddStockRecords` as the inner loop and
  `Aggregation.AddRecord` as the loop body. The body adds into the two
  volume maps (zero when a key is new) and calls `Add` on the stock's
  `UpperLower`, which is default-constructed when the stock is new.
- The three output loops are `Output.WritePercentLines`, the delimiter and
  `Output.WriteExtremaLines`, composed by `Output.EmitReport`.
- `Output.Run` chains the three steps.

Each method is proved against specification functions:

- `Trades.Parsed`: the records of the well-formed lines, in file order.
- `Trades.DataOf`: the records of one stock, in order.
- `Totals.StockTotals`, `Totals.IntervalTotals` and `Totals.DayExtrema`:
  the three maps, as the result of ingesting the records one at a time.
- `Output.Report`: the output lines.

Lemmas then prove what these functions mean:

- totals are sums;
- interval volumes add up to the stock's total;
- the extrema are exact and attained;
- the key sets line up;
- the output is sorted, has exactly one `#`, and the percentages of a stock
  add up to 100.

A `std::map` is a Dafny `map` plus the order it is iterated in:

- `Orders.InOrder` lists the keys by repeatedly taking the least one left.
- `Orders.SortedSeq` is the unique strictly ascending listing of a key set.
- String keys compare as `std::string` does (`Orders.StrLess`). Pair keys
  compare as `std::pair` does (`Orders.KeyLess`).

A percentage line is kept as the two integers it is computed from: the pair's
volume and the stock's total. `Output.Percent` turns them into the exact real
`volume / total * 100`.

The documentation comment (stockmain.cpp:29-42) disagrees with the code in
two ways. The model follows the code.

- Order of the output. The comment prints its example output in input order.
  The code iterates ordered maps, so the lines come sorted by stock and then
  by interval. `Example.ExampleReport` works the comment's example through:
  BT.LN's lines come before VOD.L's.
- Separators. The comment's header describes comma-separated fields. Its
  example input, like the stream extraction at stockmain.cpp:106, uses
  whitespace.

## Model

| member | source | states |
|---|---|---|
| Orders.StrLessIrreflexive | stockmain.cpp:94 | no string sorts before itself |
| Orders.StrLessTransitive | stockmain.cpp:94 | the string order is transitive |
| Orders.StrLessTotal | stockmain.cpp:94 | of two different strings one sorts before the other |
| Orders.StrLessIsStrictTotalOrder | stockmain.cpp:116 | the string key order is a strict total order on any key set |
| Orders.KeyLessIsStrictTotalOrder | stockmain.cpp:117 | the (stock, interval) order, by stock and then interval, is a strict total order |
| Orders.LeastExists | stockmain.cpp:121 | a non-empty key set has a least key |
| Orders.SortedSeqLists | stockmain.cpp:121 | the ascending listing holds every key exactly once, strictly ascending |
| Orders.InOrder | stockmain.cpp:121 | iterating a map visits its keys strictly ascending, each exactly once |
| Orders.SortedIsUnique | stockmain.cpp:137 | two strictly ascending listings of the same keys are equal, so the iteration order is determined |
| Orders.StocksInOrder | stockmain.cpp:150 | the iteration order of a string-keyed map lists every key once, ascending, and is the only such listing |
| Orders.PairsInOrder | stockmain.cpp:137 | the same for the (stock, interval)-keyed map |
| Trades.TrailingFieldsIgnored | stockmain.cpp:106 | fields after the fifth never affect the result |
| Trades.Parsed | stockmain.cpp:99-112 | a file yields at most one record per line; which lines yield one is stated by the lemmas below |
| Trades.ParsedConcat | stockmain.cpp:99-112 | the records of two blocks of lines are the records of each, in order |
| Trades.MalformedLineIsSkipped | stockmain.cpp:106-109 | a malformed line contributes nothing and the lines after it are read as if it were absent |
| Trades.ParsedLineIsKept | stockmain.cpp:111 | a well-formed line contributes exactly its own record, in its place |
| Trades.DataOf | stockmain.cpp:111 | a stock never has more records than were read; which ones it has is stated by DataOfAppend and GroupedHoldsData |
| Trades.StocksHaveData | stockmain.cpp:111 | a stock is named by a record exactly when it has at least one record |
| Trades.DataOfAppend | stockmain.cpp:111 | one more record extends only its own stock's records, and adds its stock to the stocks seen |
| Totals.Max | stockmain.cpp:61-63 | the result bounds both arguments and is one of them |
| Totals.Min | stockmain.cpp:64-66 | the result is bounded by both arguments and is one of them |
| Totals.IntervalsOccur | stockmain.cpp:129 | an interval is one of a stock's intervals exactly when some record of the stock has it |
| Totals.DayHighIsMaximum | stockmain.cpp:126-131 | the day high is at least every high and equals one of them; with no records it is the lowest float |
| Totals.DayLowIsMinimum | stockmain.cpp:126-131 | the day low is at most every low and equals one of them; with no records it is the largest float |
| Totals.FirstRecordReplacesSentinels | stockmain.cpp:58-67 | after a single record the day high and low are that record's own |
| Totals.IntervalVolumeSumAppend | stockmain.cpp:129 | one more record raises the sum over distinct intervals by its volume exactly when its interval is listed |
| Totals.VolumeSplitsByInterval | stockmain.cpp:128-129 | summing interval volumes over distinct intervals that cover the ones occurring gives the stock's total |
| Totals.ZeroIntervalVolumeSum | stockmain.cpp:129 | with no records every interval volume sum is zero |
| Totals.SingleIntervalHoldsAll | stockmain.cpp:128-129 | a stock seen in one interval only has all its volume there |
| Totals.PairKeysLineUp | stockmain.cpp:129 | a (stock, interval) pair is seen exactly when the stock is seen and the interval occurs among its records |
| Totals.StockTotalsAreSums | stockmain.cpp:128 | totalVolumes has exactly the stocks seen as keys, each mapped to the sum of its records' volumes |
| Totals.IntervalTotalsAreSums | stockmain.cpp:129 | totalVolumesByInterval has exactly the pairs seen as keys, each mapped to the volume of its stock's records in that interval |
| Totals.IntervalVolumeAppend | stockmain.cpp:129 | one more record adds its volume to its own interval only |
| Totals.DayExtremaAreRunningExtrema | stockmain.cpp:130 | highLows has exactly the stocks seen as keys, each holding the day high and day low of its records |
| Totals.VolumeAppend | stockmain.cpp:128 | one more record adds its volume to its stock's total |
| Totals.RecordExtends | stockmain.cpp:128-130 | one more record moves the total, each interval's volume, the intervals, the day high and the day low as one loop step does |
| Totals.IntervalVolumeAbsent | stockmain.cpp:129 | an interval no record has has volume zero |
| HighLow.UpperLower.constructor | stockmain.cpp:58 | starts with the low at the largest float and the high at the lowest float |
| HighLow.UpperLower.Add | stockmain.cpp:60-67 | the high becomes the max of old and new and never decreases; the low becomes the min and never increases |
| HighLow.SentinelsGiveWay | stockmain.cpp:58-67 | any price replaces the sentinels on the first add |
| Aggregation.GroupedHoldsData | stockmain.cpp:111 | pushing back record by record leaves each stock exactly its records in order, and only stocks with records get an entry |
| Aggregation.ParsedStep | stockmain.cpp:106-111 | reading one more line adds its record when it parses and nothing otherwise |
| Aggregation.GroupRecords | stockmain.cpp:94-112 | stockMap has exactly the stocks of the well-formed lines, each with its records in file order; one warning per malformed line |
| Aggregation.ExtremaView | stockmain.cpp:118 | reading (high, low) out of highLows keeps its key set |
| Aggregation.GroupedTotals | stockmain.cpp:121-132 | ingesting any sequence whose per-stock records are stockMap's gives totals that are sums, interval totals that are interval sums, extrema that are day highs and lows, with the key sets of stockMap |
| Aggregation.AddRecord | stockmain.cpp:128-130 | one loop body: only the record's stock entry and pair entry change, by its volume from zero if new; only its stock's UpperLower moves, by Max/Min; a new stock gets a fresh object |
| Aggregation.IngestStep | stockmain.cpp:128-130 | one loop body is ingesting one more record |
| Aggregation.RegroupStep | stockmain.cpp:126 | one more record of the current stock extends only that stock's records |
| Aggregation.NotYetSeen | stockmain.cpp:121 | a stock not yet visited has no UpperLower yet |
| Aggregation.TakeNext | stockmain.cpp:121 | the next stock in key order is not yet visited |
| Aggregation.AllGrouped | stockmain.cpp:121-132 | once every stock is visited the maps hold the totals and extrema of stockMap |
| Aggregation.RegroupStock | stockmain.cpp:121-126 | after a stock's inner loop the visited records cover one more stock |
| Aggregation.AddStockRecords | stockmain.cpp:124-131 | the inner loop ingests the stock's records in order and leaves every other stock's entries as they were |
| Aggregation.Aggregate | stockmain.cpp:116-132 | afterwards totalVolumes holds each stock's total volume, totalVolumesByInterval each occurring pair's volume, highLows each stock's day high and low, with exactly the stocks whose record vectors are non-empty, and their pairs, as keys, and one object per stock; GroupRecords never files an empty vector, so after reading these are all of stockMap's stocks |
| Output.PercentAdds | stockmain.cpp:142 | percentages over the same total add like their volumes |
| Output.WholeIsHundred | stockmain.cpp:142 | a whole total is 100 percent |
| Output.PercentLinesOfSorted | stockmain.cpp:137-144 | over an ascending listing of the pairs, the percentage lines ascend, cover every pair once, and carry the pair's volume and its stock's total |
| Output.ExtremaLinesOfSorted | stockmain.cpp:150-152 | over an ascending listing of the stocks, the extrema lines ascend, cover every stock once, and carry its high and low |
| Output.PercentPartShape | stockmain.cpp:137-144 | there is one percentage line per key of totalVolumesByInterval |
| Output.ExtremaPartShape | stockmain.cpp:150-152 | there is one extrema line per key of highLows |
| Output.ReportLayout | stockmain.cpp:137-152 | the output has exactly one `#`; percentage lines before it, one per pair; extrema lines after it, one per stock |
| Output.PercentLinesListEveryPair | stockmain.cpp:137-144 | the percentage lines come in ascending (stock, interval) order, one per key and none other, each with the pair's volume and the stock's total (0 when absent) |
| Output.ExtremaLinesListEveryStock | stockmain.cpp:150-152 | the extrema lines come in ascending stock order, one per stock and none other, each with that stock's day high and day low |
| Output.NoRecordsGiveDelimiterOnly | stockmain.cpp:137-152 | with no well-formed line the output is `#` alone |
| Output.CommonTotalPercentSum | stockmain.cpp:142 | percentages of one stock over a common total add up to the percentage of their summed volume |
| Output.IntervalsOf | stockmain.cpp:137-140 | the intervals listed for a stock are exactly those paired with it in the keys |
| Output.IntervalsOfAscend | stockmain.cpp:137 | in ascending key order a stock's intervals are listed without repetition |
| Output.IntervalVolumeSumSnoc | stockmain.cpp:129 | adding one more interval at the end adds its volume |
| Output.PercentLinesVolume | stockmain.cpp:141 | the volumes on a stock's percentage lines add up to the volumes of its listed intervals |
| Output.NoPercentLinesAddNothing | stockmain.cpp:147-151 | the delimiter and extrema lines add nothing to a stock's sums |
| Output.PercentPartVolume | stockmain.cpp:128-129 | the volumes on a stock's percentage lines add up to the stock's total volume |
| Output.PercentPartTotals | stockmain.cpp:142 | every percentage line of a stock divides by that stock's total volume |
| Output.ReportStockSums | stockmain.cpp:137-152 | a stock's sums over the whole output equal those over its percentage lines |
| Output.PercentLinesDivideByStockTotal | stockmain.cpp:142 | in the output every percentage line of a stock divides by that stock's total volume |
| Output.PercentagesSumTo100 | stockmain.cpp:128-142 | for a stock with a non-zero total, the volumes on its lines add up to the total and its percentages add up to exactly 100 |
| Output.PercentLinesSnoc | stockmain.cpp:143 | one more key prints one more percentage line, at the end |
| Output.ExtremaLinesSnoc | stockmain.cpp:151 | one more stock prints one more extrema line, at the end |
| Output.ReportOfSortedKeys | stockmain.cpp:137-152 | printing over any ascending listing of the keys gives the output, since there is only one such listing |
| Output.WritePercentLines | stockmain.cpp:137-144 | the percentage loop prints one line per key, in the order given |
| Output.WriteExtremaLines | stockmain.cpp:150-152 | the extrema loop prints one line per stock, in the order given, with the bounds its UpperLower holds |
| Output.EmitReport | stockmain.cpp:137-152 | the three output steps produce the output for the three maps |
| Output.Run | stockmain.cpp:94-152 | the program's output is that of ingesting the well-formed lines' records in file order; one warning per malformed line |
| Output.TotalsDetermined | stockmain.cpp:116-117 | what HoldsTotals says determines both volume maps completely |
| Output.ExtremaDetermined | stockmain.cpp:118 | what HoldsExtrema says determines the extrema completely |
| Example.ExampleMaps | stockmain.cpp:29-33 | ingesting the documented example gives totals BT.LN 1200 and VOD.L 125, the four pair volumes, and the day highs and lows |
| Example.ExampleKeysAscend | stockmain.cpp:137 | BT.LN sorts before VOD.L |
| Example.ExampleKeysListed | stockmain.cpp:137 | the example's ascending listings hold exactly the map keys |
| Example.ExamplePercentLines | stockmain.cpp:142 | the example's percentage lines carry 300/1200, 900/1200, 100/125 and 25/125 |
| Example.ExampleExtremaLines | stockmain.cpp:151 | the example's extrema lines carry 449.8/448.2 and 184.1/182.4 |
| Example.ExampleReport | stockmain.cpp:29-42 | the example's output is sorted by stock and then interval, not in the input order the comment shows |

## Left out

- Argument checking, the `version` banner, opening the file, and the
  progress messages (stockmain.cpp:75-92, 114, 134). These are process and
  console I/O.
- Trades.ParseLine: the model assumes that each of the five `>>`
  extractions at stockmain.cpp:106 consumes exactly one whole
  whitespace-separated token. It does not model an extraction that stops
  inside a token and leaves the rest for the next extraction. Two lines
  show where the program differs:
  - `VOD.L 1 100 184-183.7` has four tokens. The program reads high 184
    and low -183.7 and keeps the record. The model skips any line of fewer
    than five tokens.
  - `VOD.L 1, 100, 184, 183.7`: the program reads interval 1, then fails
    to extract the volume from `,` and skips the line. In the model a token
    such as `1,` or `100,` extracts as the int 1 or 100, so the line is
    kept.
  A line of five or more tokens whose second and third extract as `int`
  and whose fourth and fifth extract as `float` yields a record. Tokens
  after the fifth are ignored. Each token carries what extracting an
  `int` or a `float` from it yields.
- The text of the warning and its line number (stockmain.cpp:96, 107). The
  counter is never incremented, so the number is always 1. The model counts
  the warnings.
- Floating-point rounding is not modelled:
  - A price is any real within the finite float range, not only the values
    a float can hold.
  - Max and min use comparisons only, so the day high and low are exact.
    NaN and infinities are not modelled.
  - The percentage (stockmain.cpp:142) is the exact real
    `volume / total * 100`. It is defined only for a non-zero total. With a
    zero total the program prints inf or nan.
  - Number formatting by `cout` (stockmain.cpp:143, 151) is not modelled.
- Totals.StockTotals, Totals.IntervalTotals: the volume sums use unbounded
  integers. The 32-bit signed overflow of `+=` (stockmain.cpp:128-129) is
  not modelled.
- Output.EmitReport: in the program, `totalVolumes[stock]` inside the
  percentage loop (stockmain.cpp:142) would insert a zero entry for a
  missing stock. The model reads the value without inserting it. The map is
  not used afterwards, and every pair's stock has an entry anyway.
- The stream state after a failed extraction is not modelled. Each line
  gets its own stream, so a failure never affects later lines.
