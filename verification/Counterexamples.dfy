/** Small real inputs on which a promise of the code fails. Those of the order stream are in OrderStreamExample. */
module Counterexamples {
  import opened Wrappers
  import opened Numerals
  import FirstByKey
  import opened Crediting
  import OrderEvents
  import OrderIds
  import InstrumentIndex
  import OrderSizing
  import PagingSpec
  import Pagination
  import CsvText
  import CsvParsing
  import CsvInfluence

  // ----- fills ---------------------------------------------------------------------------------

  function FillRow(instId: string): OrderEvents.Delivery {
    var symbols := map["A-USDT" := "A", "B-USDT" := "B"];
    OrderEvents.Delivery(
      OrderEvents.OrderRow(instId, "", "filled", "", "", "", 0.0, 1.0, 1.0, 1.0, "1", ""),
      OrderEvents.Surroundings(symbols, map[], true, true))
  }

  lemma SecondOfOneKey<D, K, F, U>(rules: Rules<D, K, F, U>, a: D, b: D)
    requires rules.eligible(a) && rules.eligible(b) && rules.key(a) == rules.key(b)
    ensures Fills(Output(rules, [a, b])) == [rules.fill(a)]
  {
    PartsSnoc(rules, [], a);
    PartsSnoc(rules, [a], b);
    OutputSnoc(rules, [], a);
    assert [] + [a] == [a] && [a] + [b] == [a, b];
  }

  /** Trade 1 of two instruments: the second fill is never handed out. */
  lemma SharedTradeId()
    ensures var a, b := FillRow("A-USDT"), FillRow("B-USDT");
      && OrderEvents.Eligible(a) && OrderEvents.Eligible(b) && OrderEvents.Trade(a) != OrderEvents.Trade(b)
      && Fills(Output(OrderEvents.RULES, [a, b])) == [OrderEvents.FillOf(a)]
  {
    assert "A-USDT"[0] != "B-USDT"[0];
    SecondOfOneKey(OrderEvents.RULES, FillRow("A-USDT"), FillRow("B-USDT"));
  }

  // ----- instruments ---------------------------------------------------------------------------

  function Listed(instId: string, instFamily: string): InstrumentIndex.Instrument {
    InstrumentIndex.Instrument(instId, instFamily, true, 1.0, 1.0, 1.0, 1.0)
  }

  /** An id with the marker but not the family keeps the true X-Perp of the same base out. */
  lemma DisputedCatalogue()
    ensures var catalogue := [Listed("A-XPERP", "A-USD"), Listed("A-USD", "XPERP")];
      && InstrumentIndex.Choice(catalogue, "A") == Some(0)
      && InstrumentIndex.Preferred(catalogue, "A") == Some(1)
  {
    var first, second := Listed("A-XPERP", "A-USD"), Listed("A-USD", "XPERP");
    assert InstrumentIndex.Base(first.instId) == "A" && InstrumentIndex.Base(second.instId) == "A";
    assert "A-XPERP"[1..] == "-XPERP" && "-XPERP"[1..] == "XPERP" && "XPERP"[..5] == "XPERP";
    assert "A-XPERP"[0] != "XPERP"[0] && "-XPERP"[0] != "XPERP"[0] && "A-USD"[0] != "XPERP"[0];
    assert InstrumentIndex.HasMarker("-XPERP") && InstrumentIndex.HasMarker("XPERP") && !InstrumentIndex.HasMarker("-USD");
    assert InstrumentIndex.LooksXPerp(first) && !InstrumentIndex.IsXPerp(first) && InstrumentIndex.IsXPerp(second);
    var catalogue := [first, second];
    assert catalogue[..1] == [first] && [first][..0] == [];
    assert InstrumentIndex.Choice([first], "A") == Some(0);
    assert InstrumentIndex.First([first], "A", true) == None;
  }

  // ----- pages ---------------------------------------------------------------------------------

  /** Two pages, the second starting with a candle that is still forming: the writer never gets it, the caller does. */
  lemma FormingOnSecondPage()
    ensures
      var older, newer := Pagination.Candle(1, false, ()), Pagination.Candle(2, true, ());
      var wanted, pages := [older, newer], [[newer], [older]];
      && Pagination.Answered(pages) && Pagination.Flatten(pages) == PagingSpec.Reverse(wanted)
      && Pagination.Flatten(Pagination.WrittenPages(pages)) != PagingSpec.Reverse(Pagination.Finished(wanted))
  {
    var older, newer := Pagination.Candle(1, false, ()), Pagination.Candle(2, true, ());
    Pagination.FlattenSingles([newer, older]);
    assert Pagination.Singles([newer, older]) == [[newer], [older]];
    assert PagingSpec.Reverse([older, newer]) == [newer, older];
    Pagination.WriterAgrees([[newer], [older]], [older, newer]);
    assert !Pagination.LaterPagesFinished([[newer], [older]]) by {
      assert [[newer], [older]][1][0] == older;
    }
  }

  function OneRecord(k: nat): seq<nat> { [7] }

  function OnePerPage(k: nat): nat { 1 }

  function Itself(t: nat): nat { t }

  /** A venue with one record: asked for everything from -1 on, the download never ends. */
  lemma EndlessDownload()
    ensures !PagingSpec.Ends(PagingSpec.Venue(OneRecord, OnePerPage, Itself), -1, 10)
  {
    PagingSpec.EndsUnlessOpenStart(PagingSpec.Venue(OneRecord, OnePerPage, Itself), -1, 10);
  }

  // ----- archive files -------------------------------------------------------------------------

  function ReadDigit(s: string): Option<real> {
    if |s| == 1 && IsDigit(s[0]) then Some(DigitValue(s[0]) as real) else None
  }

  function RowWith(price: char, time: string): seq<string> {
    ["A", [price], [price], [price], [price], [price], "", "", time, "1"]
  }

  lemma RowReads(price: char, time: string)
    requires IsDigit(price) && CsvParsing.Plain(time)
    ensures
      var fields, value := RowWith(price, time), DigitValue(price) as real;
      && CsvParsing.Row(fields)
      && CsvParsing.CandleRow("A", ReadDigit)(fields) ==
         Some(CsvParsing.Candle(CsvParsing.Timestamp(time), value, value, value, value, value, 0.0, 0.0, true))
  {
    assert ReadDigit([price]) == Some(DigitValue(price) as real);
    assert CsvParsing.Optional("", ReadDigit) == Some(0.0);
  }

  lemma FirstOfTwo(one: CsvParsing.Candle, two: CsvParsing.Candle)
    requires one.ts == two.ts
    ensures FirstByKey.Firsts([one, two], CsvParsing.CandleTime) == [one]
  {
    FirstByKey.KeysSnoc([], one, CsvParsing.CandleTime);
    FirstByKey.KeysSnoc([one], two, CsvParsing.CandleTime);
    assert [] + [one] == [one] && [one] + [two] == [one, two];
  }

  function FileOf(rows: seq<seq<string>>): string { CsvText.Terminated(["h"] + CsvParsing.Lines(rows), '\n') }

  lemma TwoRowsOfOneTime(
      first: seq<string>, second: seq<string>, one: CsvParsing.Candle, two: CsvParsing.Candle, row: seq<string> -> Option<CsvParsing.Candle>)
    requires CsvParsing.Row(first) && CsvParsing.Row(second) && row(first) == Some(one) && row(second) == Some(two) && one.ts == two.ts
    ensures CsvParsing.Parsed(FileOf([first, second]), row, CsvParsing.CandleTime) == [one]
  {
    CsvInfluence.RowsParse("h", [first, second], [one, two], row, CsvParsing.CandleTime);
    FirstOfTwo(one, two);
  }

  /** Two rows without a readable time: the first comes out as a candle of time 0, the second is lost. */
  lemma UnreadableTimes()
    ensures CsvParsing.Parsed(FileOf([RowWith('1', "x"), RowWith('2', "y")]), CsvParsing.CandleRow("A", ReadDigit), CsvParsing.CandleTime) ==
            [CsvParsing.Candle(0, 1.0, 1.0, 1.0, 1.0, 1.0, 0.0, 0.0, true)]
  {
    var one := CsvParsing.Candle(0, 1.0, 1.0, 1.0, 1.0, 1.0, 0.0, 0.0, true);
    var two := CsvParsing.Candle(0, 2.0, 2.0, 2.0, 2.0, 2.0, 0.0, 0.0, true);
    RowReads('1', "x");
    RowReads('2', "y");
    TwoRowsOfOneTime(RowWith('1', "x"), RowWith('2', "y"), one, two, CsvParsing.CandleRow("A", ReadDigit));
  }

  function OneRow(): string { CsvText.Join(RowWith('1', "5"), ',') }

  lemma OneRowIsHeader()
    ensures CsvParsing.Header(OneRow()) && '\n' !in OneRow()
  {
    RowReads('1', "5");
    CsvParsing.RowReadsBack(RowWith('1', "5"), CsvParsing.CandleRow("A", ReadDigit));
    assert OneRow() == "A" + [','] + CsvText.Join(RowWith('1', "5")[1..], ',');
  }

  /** A file of one good row and no header: nothing comes out. */
  lemma HeaderlessFile()
    ensures CsvParsing.CandleRow("A", ReadDigit)(RowWith('1', "5")).Some?
    ensures CsvParsing.Parsed(CsvText.Terminated([OneRow()], '\n'), CsvParsing.CandleRow("A", ReadDigit), CsvParsing.CandleTime) == []
  {
    RowReads('1', "5");
    OneRowIsHeader();
    CsvInfluence.OnlyHeader(OneRow(), CsvParsing.CandleRow("A", ReadDigit), CsvParsing.CandleTime);
  }

  // ----- ids -----------------------------------------------------------------------------------

  lemma LostId()
    ensures OrderIds.FromVenue(OrderIds.ToVenue("Z")) == "-"
  {
  }

  /** An instrument whose id starts with a dash is listed under the empty symbol, and its fills are ignored. */
  lemma EmptySymbol()
    ensures InstrumentIndex.Choice([Listed("-X", "X")], "") == Some(0)
    ensures !OrderEvents.Eligible(FillRow("-X").(around := OrderEvents.Surroundings(map["-X" := ""], map[], true, true)))
  {
    var x := Listed("-X", "X");
    assert InstrumentIndex.Base(x.instId) == "";
    assert [x][..0] == [];
  }
}
