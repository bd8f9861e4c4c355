/** The trade records of the input file and the parse of one line. */
module Trades {
  import opened Wrappers

  /** numeric_limits<float>::max(), the largest finite single-precision value. */
  const FloatMax: real := 340282346638528859811704183484516925440.0

  /** numeric_limits<float>::lowest(), the most negative finite single-precision value. */
  const FloatLowest: real := -340282346638528859811704183484516925440.0

  /** A finite single-precision price. Only its bounds are modelled, not the
      grid of values a float can hold. */
  type Price = r: real | -340282346638528859811704183484516925440.0 <= r <= 340282346638528859811704183484516925440.0
    witness 0.0

  /** A C++ `int`. */
  type Int32 = x: int | -0x8000_0000 <= x < 0x8000_0000

  /** One record of the input file without its stock name, which is the key
      it is filed under. */
  datatype StockData = StockData(interval: Int32, volume: Int32, high: Price, low: Price)

  /** A parsed line: the stock name and its record. */
  datatype Trade = Trade(stock: string, data: StockData)

  /** One whitespace-delimited token of a line, with what extracting an `int`
      or a `float` from it yields (None when the extraction fails). The model
      assumes every extraction consumes exactly one whole token; an extraction
      that stops inside a token, leaving the rest to the next one, is not
      modelled. */
  datatype Field = Field(text: string, asInt: Option<Int32>, asFloat: Option<Price>)

  type Line = seq<Field>

  /** The chain of five stream extractions: stock, interval, volume, high, low.
      It fails when a field is missing or does not convert; tokens after the
      fifth are never read. */
  function ParseLine(line: Line): Option<Trade>
  {
    if |line| < 5 then None
    else
      match (line[1].asInt, line[2].asInt, line[3].asFloat, line[4].asFloat)
      case (Some(interval), Some(volume), Some(high), Some(low)) =>
        Some(Trade(line[0].text, StockData(interval, volume, high, low)))
      case _ => None
  }

  /** Extraction stops after the fifth field: whatever follows is ignored. */
  lemma TrailingFieldsIgnored(line: Line, extra: Line)
    requires |line| >= 5
    ensures ParseLine(line + extra) == ParseLine(line)
  {
    assert (line + extra)[..5] == line[..5];
    assert forall j :: 0 <= j < 5 ==> (line + extra)[j] == line[j];
  }

  /** The records of the lines that parse, in input order; the other lines
      are skipped. */
  function Parsed(lines: seq<Line>): (ts: seq<Trade>)
    ensures |ts| <= |lines|
  {
    if lines == [] then []
    else
      var init := Parsed(lines[..|lines| - 1]);
      match ParseLine(lines[|lines| - 1])
      case Some(t) => init + [t]
      case None => init
  }

  lemma {:induction false} ParsedConcat(a: seq<Line>, b: seq<Line>)
    ensures Parsed(a + b) == Parsed(a) + Parsed(b)
    decreases |b|
  {
    if b == [] {
      assert a + b == a;
    } else {
      var b' := b[..|b| - 1];
      assert (a + b)[..|a + b| - 1] == a + b';
      ParsedConcat(a, b');
    }
  }

  /** A line that does not parse contributes no record, and the lines after
      it are read as if it were not there. */
  lemma MalformedLineIsSkipped(before: seq<Line>, line: Line, after: seq<Line>)
    requires ParseLine(line).None?
    ensures Parsed(before + [line] + after) == Parsed(before + after)
  {
    ParsedConcat(before + [line], after);
    ParsedConcat(before, [line]);
    ParsedConcat(before, after);
    assert Parsed([line]) == [] by {
      assert [line][..0] == [];
    }
  }

  /** A line that parses contributes exactly its own record, in its place. */
  lemma ParsedLineIsKept(before: seq<Line>, line: Line, after: seq<Line>)
    requires ParseLine(line).Some?
    ensures Parsed(before + [line] + after) == Parsed(before) + [ParseLine(line).value] + Parsed(after)
  {
    ParsedConcat(before + [line], after);
    ParsedConcat(before, [line]);
    assert Parsed([line]) == [ParseLine(line).value] by {
      assert [line][..0] == [];
    }
  }

  /** The records of stock `s`, in input order: the vector that
      `stockMap[s]` accumulates. */
  function DataOf(trades: seq<Trade>, s: string): (ds: seq<StockData>)
    ensures |ds| <= |trades|
  {
    if trades == [] then []
    else
      var last := trades[|trades| - 1];
      DataOf(trades[..|trades| - 1], s) + (if last.stock == s then [last.data] else [])
  }

  /** The stocks named by at least one record. */
  function Stocks(trades: seq<Trade>): set<string>
  {
    if trades == [] then {}
    else Stocks(trades[..|trades| - 1]) + {trades[|trades| - 1].stock}
  }

  lemma {:induction false} StocksHaveData(trades: seq<Trade>, s: string)
    ensures s in Stocks(trades) <==> DataOf(trades, s) != []
    decreases |trades|
  {
    if trades != [] {
      StocksHaveData(trades[..|trades| - 1], s);
    }
  }

  /** Appending a record extends only its own stock's vector. */
  lemma DataOfAppend(trades: seq<Trade>, t: Trade, s: string)
    ensures DataOf(trades + [t], s) == DataOf(trades, s) + (if t.stock == s then [t.data] else [])
    ensures Stocks(trades + [t]) == Stocks(trades) + {t.stock}
  {
    assert (trades + [t])[..|trades|] == trades;
  }
}
