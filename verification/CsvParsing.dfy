/** The archive parsers for candles and funding rates. Decimals are exact reals; reading one is a parameter that may fail. */
module CsvParsing {
  import opened Wrappers
  import opened FirstByKey
  import opened Numerals
  import opened CsvText
  import opened Text

  type DecimalReader = string -> Option<real>

  datatype Candle = Candle(ts: int, o: real, h: real, l: real, c: real, vol: real, volCcy: real, volCcyQuote: real, confirm: bool)

  datatype FundingRate = FundingRate(instId: string, fundingRate: real, fundingTime: int)

  function Digits(s: string): (digits: string)
    ensures |digits| <= |s| && digits == s[..|digits|] && AllDigits(digits)
  {
    if s == "" || !IsDigit(s[0]) then "" else [s[0]] + Digits(s[1..])
  }

  /** from_chars for a 64-bit integer: the longest numeric prefix, nothing if there is none or it does not fit. */
  function FromChars(s: string): Option<int> {
    var negative := s != "" && s[0] == '-';
    var digits := Digits(if negative then s[1..] else s);
    var value := if negative then -(Value(digits) as int) else Value(digits);
    if digits == "" || !(-0x8000_0000_0000_0000 <= value < 0x8000_0000_0000_0000) then None else Some(value)
  }

  /** An unreadable time leaves the record's initial zero. */
  function Timestamp(s: string): int {
    if FromChars(s).Some? then FromChars(s).value else 0
  }

  /** Volumes that may be missing. */
  function Optional(s: string, dec: DecimalReader): Option<real> {
    if s == "None" || s == "" then Some(0.0) else dec(s)
  }

  /** A row the wanted instrument can use; any decimal that cannot be read spoils it. */
  function CandleOf(fields: seq<string>, name: string, dec: DecimalReader): Option<Candle> {
    if |fields| < 10 || (name != "" && fields[0] != name) then None
    else
      var o, h, l, c, vol := dec(fields[1]), dec(fields[2]), dec(fields[3]), dec(fields[4]), dec(fields[5]);
      var volCcy, volCcyQuote := Optional(fields[6], dec), Optional(fields[7], dec);
      if o.None? || h.None? || l.None? || c.None? || vol.None? || volCcy.None? || volCcyQuote.None? then None
      else Some(Candle(
        Timestamp(fields[8]), o.value, h.value, l.value, c.value, vol.value, volCcy.value, volCcyQuote.value, fields[9] in {"1", "true", "True"}))
  }

  function FundingRateOf(fields: seq<string>, name: string, dec: DecimalReader): Option<FundingRate> {
    if |fields| < 3 || (name != "" && fields[0] != name) || fields[1] == "None" || fields[1] == "" then None
    else if dec(fields[1]).None? then None
    else Some(FundingRate(fields[0], dec(fields[1]).value, Timestamp(if |fields| >= 4 then fields[3] else fields[2])))
  }

  /** The row readers of the two parsers. */
  function CandleRow(name: string, dec: DecimalReader): seq<string> -> Option<Candle> {
    (fields: seq<string>) => CandleOf(fields, name, dec)
  }

  function FundingRow(name: string, dec: DecimalReader): seq<string> -> Option<FundingRate> {
    (fields: seq<string>) => FundingRateOf(fields, name, dec)
  }

  function CandleTime(candle: Candle): int { candle.ts }

  function FundingTime(rate: FundingRate): int { rate.fundingTime }

  /** The lines that count as data. Only the first line that is not empty may be a header, and is one unless it starts with a digit. */
  function DataLines(lines: seq<string>, isFirstLine: bool): seq<string> {
    if lines == [] then []
    else if lines[0] == "" then DataLines(lines[1..], isFirstLine)
    else if isFirstLine && !IsDigit(lines[0][0]) then DataLines(lines[1..], false)
    else [lines[0]] + DataLines(lines[1..], false)
  }

  function Rows<R>(lines: seq<string>, row: seq<string> -> Option<R>): seq<R> {
    if lines == [] then []
    else
      var first := row(Split(lines[0], ','));
      (if first.Some? then [first.value] else []) + Rows(lines[1..], row)
  }

  /** The usable rows of a text, in order. */
  function Usable<R>(text: string, isFirstLine: bool, row: seq<string> -> Option<R>): seq<R> {
    Rows(DataLines(CleanAll(Split(text, '\n')), isFirstLine), row)
  }

  /** What a parser should give for a file: the first usable row of each time, in the order of the file. */
  function Parsed<R>(text: string, row: seq<string> -> Option<R>, time: R -> int): seq<R> {
    Firsts(Usable(text, true, row), time)
  }

  lemma UsableStep<R>(text: string, isFirstLine: bool, row: seq<string> -> Option<R>)
    requires text != ""
    ensures
      var line, rest := Clean(Head(text, '\n')), Tail(text, '\n');
      Usable(text, isFirstLine, row) ==
      if line == "" then Usable(rest, isFirstLine, row)
      else if isFirstLine && !IsDigit(line[0]) then Usable(rest, false, row)
      else if row(Split(line, ',')).None? then Usable(rest, false, row)
      else [row(Split(line, ',')).value] + Usable(rest, false, row)
  {
    var line, ahead := Clean(Head(text, '\n')), CleanAll(Split(text, '\n'));
    assert ahead == [line] + CleanAll(Split(Tail(text, '\n'), '\n'));
    assert ahead[1..] == CleanAll(Split(Tail(text, '\n'), '\n'));
    var data := DataLines(ahead, isFirstLine);
    if line != "" && !(isFirstLine && !IsDigit(line[0])) {
      assert data[1..] == DataLines(ahead[1..], false);
    }
  }

  /** What the rest of the text still adds to the rows used so far. */
  ghost predicate Pending<R>(text: string, row: seq<string> -> Option<R>, usable: seq<R>, rest: string, isFirstLine: bool) {
    Usable(text, true, row) == usable + Usable(rest, isFirstLine, row)
  }

  lemma LineSkipped<R>(text: string, row: seq<string> -> Option<R>, usable: seq<R>, rest: string, isFirstLine: bool)
    requires rest != "" && Pending(text, row, usable, rest, isFirstLine)
    requires var line := Clean(Head(rest, '\n')); line == "" || (isFirstLine && !IsDigit(line[0])) || row(Split(line, ',')).None?
    ensures Pending(text, row, usable, Tail(rest, '\n'), isFirstLine && Clean(Head(rest, '\n')) == "")
  {
    UsableStep(rest, isFirstLine, row);
  }

  lemma LineUsed<R>(text: string, row: seq<string> -> Option<R>, usable: seq<R>, rest: string, isFirstLine: bool)
    requires rest != "" && Pending(text, row, usable, rest, isFirstLine)
    requires var line := Clean(Head(rest, '\n')); line != "" && !(isFirstLine && !IsDigit(line[0])) && row(Split(line, ',')).Some?
    ensures Pending(text, row, usable + [row(Split(Clean(Head(rest, '\n')), ',')).value], Tail(rest, '\n'), false)
  {
    UsableStep(rest, isFirstLine, row);
    Associates(usable, [row(Split(Clean(Head(rest, '\n')), ',')).value], Usable(Tail(rest, '\n'), false, row));
  }

  lemma NothingPending<R>(text: string, row: seq<string> -> Option<R>, usable: seq<R>, isFirstLine: bool)
    requires Pending(text, row, usable, "", isFirstLine)
    ensures Usable(text, true, row) == usable
  {
  }

  method SplitFields(line: string) returns (fields: seq<string>)
    ensures fields == Split(line, ',')
  {
    fields := [];
    var rest := line;
    while rest != ""
      invariant fields + Split(rest, ',') == Split(line, ',')
      decreases |rest|
    {
      Associates(fields, [Head(rest, ',')], Split(Tail(rest, ','), ','));
      fields := fields + [Head(rest, ',')];
      rest := Tail(rest, ',');
    }
  }

  /** One turn of the loop up to the conversion: None if the line is empty, a header, malformed or another instrument's. */
  method NextRecord<R>(text: string, isFirstLine: bool, row: seq<string> -> Option<R>) returns (record: Option<R>, rest: string, stillFirst: bool)
    requires text != ""
    ensures rest == Tail(text, '\n') && (stillFirst <==> isFirstLine && Clean(Head(text, '\n')) == "")
    ensures
      var line := Clean(Head(text, '\n'));
      record == if line == "" || (isFirstLine && !IsDigit(line[0])) then None else row(Split(line, ','))
  {
    var line := Head(text, '\n');
    rest, stillFirst := Tail(text, '\n'), isFirstLine;
    if line != "" && line[|line| - 1] == '\r' {
      line := line[..|line| - 1];
    }
    if line == "" {
      return None, rest, stillFirst;
    }
    if isFirstLine {
      stillFirst := false;
      if !IsDigit(line[0]) {
        return None, rest, stillFirst;
      }
    }
    var fields := SplitFields(line);
    record := row(fields);
  }

  /** The loop shared by both parsers. */
  method ParseRows<R>(text: string, row: seq<string> -> Option<R>, time: R -> int) returns (parsed: seq<R>)
    ensures parsed == Parsed(text, row, time)
  {
    parsed := [];
    var seenTimestamps: set<int> := {};
    var rest, isFirstLine := text, true;
    ghost var usable := [];
    while rest != ""
      invariant Pending(text, row, usable, rest, isFirstLine)
      invariant parsed == Firsts(usable, time) && seenTimestamps == Keys(usable, time)
      decreases |rest|
    {
      var record, next, first := NextRecord(rest, isFirstLine, row);
      if record.None? {
        LineSkipped(text, row, usable, rest, isFirstLine);
      } else {
        LineUsed(text, row, usable, rest, isFirstLine);
        KeysSnoc(usable, record.value, time);
        usable := usable + [record.value];
        if time(record.value) !in seenTimestamps {
          seenTimestamps := seenTimestamps + {time(record.value)};
          parsed := parsed + [record.value];
        }
      }
      rest, isFirstLine := next, first;
    }
    NothingPending(text, row, usable, isFirstLine);
  }

  method ParseCandlesCsv(text: string, name: string, dec: DecimalReader) returns (candles: seq<Candle>)
    ensures candles == Parsed(text, CandleRow(name, dec), CandleTime)
  {
    candles := ParseRows(text, CandleRow(name, dec), CandleTime);
  }

  method ParseFundingRateCsv(text: string, name: string, dec: DecimalReader) returns (rates: seq<FundingRate>)
    ensures rates == Parsed(text, FundingRow(name, dec), FundingTime)
  {
    rates := ParseRows(text, FundingRow(name, dec), FundingTime);
  }

  /** Windows line ends parse like plain ones. */
  lemma LineEndsDoNotMatter<R>(text: string, row: seq<string> -> Option<R>, time: R -> int)
    requires '\r' !in text
    ensures Parsed(Crlf(text), row, time) == Parsed(text, row, time)
  {
    CrlfSameLines(text);
    CleanKeepsLines(text);
  }

  /** The record of one line behind the first, if it has one. */
  function LineRecord<R>(line: string, row: seq<string> -> Option<R>): seq<R> {
    if Clean(line) == "" || row(Split(Clean(line), ',')).None? then [] else [row(Split(Clean(line), ',')).value]
  }

  /** The lists that f gives for the elements, joined. */
  function FlatMap<T, R>(xs: seq<T>, f: T -> seq<R>): seq<R> {
    if xs == [] then [] else f(xs[0]) + FlatMap(xs[1..], f)
  }

  lemma {:induction false} FlatMapAppend<T, R>(a: seq<T>, b: seq<T>, f: T -> seq<R>)
    ensures FlatMap(a + b, f) == FlatMap(a, f) + FlatMap(b, f)
  {
    if a == [] {
      assert a + b == b;
    } else {
      FlatMapAppend(a[1..], b, f);
      assert (a + b)[1..] == a[1..] + b;
      Associates(f(a[0]), FlatMap(a[1..], f), FlatMap(b, f));
    }
  }

  lemma EmptyDropped<T, R>(before: seq<T>, x: T, after: seq<T>, f: T -> seq<R>)
    requires f(x) == []
    ensures FlatMap(before + [x] + after, f) == FlatMap(before + after, f)
  {
    FlatMapAppend(before + [x], after, f);
    FlatMapAppend(before, [x], f);
    FlatMapAppend(before, after, f);
    assert FlatMap([x], f) == [];
  }

  /** Behind the first line every line speaks for itself. */
  function LineRecords<R>(lines: seq<string>, row: seq<string> -> Option<R>): seq<R> {
    FlatMap(lines, (line: string) => LineRecord(line, row))
  }

  lemma {:induction false} RecordsAreRows<R>(lines: seq<string>, row: seq<string> -> Option<R>)
    ensures Rows(DataLines(CleanAll(lines), false), row) == LineRecords(lines, row)
  {
    if lines != [] {
      var all := CleanAll(lines);
      RecordsAreRows(lines[1..], row);
      assert all[1..] == CleanAll(lines[1..]);
      if Clean(lines[0]) != "" {
        assert DataLines(all, false)[1..] == DataLines(all[1..], false);
      }
    }
  }

  /** The first line of a file is passed over as a header. */
  predicate Header(line: string) { Clean(line) != "" && !IsDigit(Clean(line)[0]) }

  lemma BehindHeader<R>(header: string, lines: seq<string>, row: seq<string> -> Option<R>)
    requires Header(header) && '\n' !in header && Free(lines, '\n')
    ensures Usable(Terminated([header] + lines, '\n'), true, row) == LineRecords(lines, row)
  {
    var all := [header] + lines;
    SplitTerminated(all, '\n');
    assert all[1..] == lines;
    assert CleanAll(all)[1..] == CleanAll(lines);
    RecordsAreRows(lines, row);
  }

  // ----- writing and reading back --------------------------------------------------------------

  lemma {:induction false} DigitsOfDigits(s: string)
    requires AllDigits(s)
    ensures Digits(s) == s
  {
    if s != "" {
      DigitsOfDigits(s[1..]);
      assert [s[0]] + s[1..] == s;
    }
  }

  predicate FitsInt64(n: int) { -9_223_372_036_854_775_808 <= n <= 9_223_372_036_854_775_807 }

  lemma TimestampReadsBack(n: int)
    requires FitsInt64(n)
    ensures Timestamp(IntText(n)) == n
  {
    var magnitude := if n < 0 then -n else n;
    NatTextReads(magnitude);
    DigitsOfDigits(NatText(magnitude));
    if n < 0 {
      assert IntText(n)[1..] == NatText(magnitude);
    }
  }

  ghost predicate Plain(s: string) { ',' !in s && '\n' !in s && '\r' !in s }

  /** The text of a decimal is understood by the reader and cannot be taken for anything else. */
  ghost predicate Shown(x: real, show: real -> string, dec: DecimalReader) {
    Plain(show(x)) && show(x) != "" && show(x) != "None" && dec(show(x)) == Some(x)
  }

  ghost predicate Writable(candle: Candle, show: real -> string, dec: DecimalReader) {
    && Shown(candle.o, show, dec) && Shown(candle.h, show, dec) && Shown(candle.l, show, dec) && Shown(candle.c, show, dec)
    && Shown(candle.vol, show, dec) && Shown(candle.volCcy, show, dec) && Shown(candle.volCcyQuote, show, dec)
    && FitsInt64(candle.ts)
  }

  /** The documented columns: instrument name, open, high, low, close, three volumes, open time, confirm. */
  function CandleFields(candle: Candle, name: string, show: real -> string): seq<string> {
    [name, show(candle.o), show(candle.h), show(candle.l), show(candle.c), show(candle.vol), show(candle.volCcy), show(candle.volCcyQuote),
     IntText(candle.ts), if candle.confirm then "1" else "0"]
  }

  /** The two documented funding formats: with the realised rate in third place, or without it. */
  function FundingFields(rate: FundingRate, realised: Option<string>, show: real -> string): seq<string> {
    [rate.instId, show(rate.fundingRate)] + (if realised.Some? then [realised.value] else []) + [IntText(rate.fundingTime)]
  }

  lemma CandleReadsBack(candle: Candle, name: string, show: real -> string, dec: DecimalReader)
    requires Writable(candle, show, dec)
    ensures CandleOf(CandleFields(candle, name, show), name, dec) == Some(candle)
  {
    TimestampReadsBack(candle.ts);
    assert "0" !in {"1", "true", "True"} by {
      assert |"0"| != |"true"| && "0"[0] != "1"[0];
    }
  }

  lemma FundingReadsBack(rate: FundingRate, realised: Option<string>, show: real -> string, dec: DecimalReader)
    requires Shown(rate.fundingRate, show, dec) && FitsInt64(rate.fundingTime)
    ensures FundingRateOf(FundingFields(rate, realised, show), rate.instId, dec) == Some(rate)
  {
    TimestampReadsBack(rate.fundingTime);
  }

  /** A row that stands in a line of its own. */
  ghost predicate Row(fields: seq<string>) {
    |fields| >= 2 && fields[|fields| - 1] != "" && forall i :: 0 <= i < |fields| ==> Plain(fields[i])
  }

  function Lines(rows: seq<seq<string>>): (lines: seq<string>)
    ensures |lines| == |rows|
  {
    if rows == [] then [] else [Join(rows[0], ',')] + Lines(rows[1..])
  }

  lemma {:induction false} JoinedIsPlain(fields: seq<string>, c: char)
    requires c != ',' && forall i :: 0 <= i < |fields| ==> c !in fields[i]
    ensures c !in Join(fields, ',')
  {
    if |fields| > 1 {
      JoinedIsPlain(fields[1..], c);
    }
  }

  /** The record of a joined row is what the reader makes of its fields. */
  lemma RowReadsBack<R>(fields: seq<string>, row: seq<string> -> Option<R>)
    requires Row(fields)
    ensures '\n' !in Join(fields, ',')
    ensures LineRecord(Join(fields, ','), row) == if row(fields).Some? then [row(fields).value] else []
  {
    var line := Join(fields, ',');
    JoinedIsPlain(fields, '\n');
    JoinedIsPlain(fields, '\r');
    SplitJoin(fields, ',');
    assert line == fields[0] + [','] + Join(fields[1..], ',');
    assert line != "" && line[|line| - 1] in line;
    assert Clean(line) == line;
  }

  lemma {:induction false} RowsReadBack<R>(rows: seq<seq<string>>, values: seq<R>, row: seq<string> -> Option<R>)
    requires |rows| == |values| && forall i :: 0 <= i < |rows| ==> Row(rows[i]) && row(rows[i]) == Some(values[i])
    ensures Free(Lines(rows), '\n') && LineRecords(Lines(rows), row) == values
  {
    if rows != [] {
      RowsReadBack(rows[1..], values[1..], row);
      RowReadsBack(rows[0], row);
      assert Lines(rows)[1..] == Lines(rows[1..]);
      assert values == [values[0]] + values[1..];
    }
  }

  function CandleRows(candles: seq<Candle>, name: string, show: real -> string): (rows: seq<seq<string>>)
    ensures |rows| == |candles| && forall i :: 0 <= i < |rows| ==> rows[i] == CandleFields(candles[i], name, show)
  {
    seq(|candles|, i requires 0 <= i < |candles| => CandleFields(candles[i], name, show))
  }

  lemma IntTextPlain(n: int)
    ensures Plain(IntText(n)) && IntText(n) != ""
  {
  }

  lemma CandleRowPlain(candle: Candle, name: string, show: real -> string, dec: DecimalReader)
    requires Writable(candle, show, dec) && Plain(name)
    ensures Row(CandleFields(candle, name, show))
  {
    IntTextPlain(candle.ts);
  }

  /** An archive file written in the documented columns parses to the first candle of each time, whatever candles it holds. */
  lemma ArchiveReadsBack(header: string, candles: seq<Candle>, name: string, show: real -> string, dec: DecimalReader)
    requires Header(header) && '\n' !in header && Plain(name)
    requires forall i :: 0 <= i < |candles| ==> Writable(candles[i], show, dec)
    ensures Parsed(Terminated([header] + Lines(CandleRows(candles, name, show)), '\n'), CandleRow(name, dec), CandleTime) ==
            Firsts(candles, CandleTime)
  {
    var row, rows := CandleRow(name, dec), CandleRows(candles, name, show);
    forall i | 0 <= i < |rows| ensures Row(rows[i]) && row(rows[i]) == Some(candles[i]) {
      CandleReadsBack(candles[i], name, show, dec);
      CandleRowPlain(candles[i], name, show, dec);
    }
    RowsReadBack(rows, candles, row);
    BehindHeader(header, Lines(rows), row);
  }
}
