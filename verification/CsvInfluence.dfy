/** Which lines of an archive file influence what is read from it. */
module CsvInfluence {
  import opened Wrappers
  import opened Text
  import opened FirstByKey
  import opened CsvText
  import opened Numerals
  import opened CsvParsing

  // ----- the first line ------------------------------------------------------------------------

  lemma FirstLineIsData<R>(first: string, rest: seq<string>, row: seq<string> -> Option<R>)
    requires '\n' !in first && Free(rest, '\n') && Clean(first) != "" && IsDigit(Clean(first)[0])
    ensures Usable(Terminated([first] + rest, '\n'), true, row) == LineRecord(first, row) + LineRecords(rest, row)
  {
    var all := [first] + rest;
    SplitTerminated(all, '\n');
    assert all[1..] == rest;
    assert CleanAll(all)[1..] == CleanAll(rest);
    assert DataLines(CleanAll(all), true)[1..] == DataLines(CleanAll(rest), false);
    RecordsAreRows(rest, row);
  }

  lemma RecordsOfFirst<R>(first: string, rest: seq<string>, row: seq<string> -> Option<R>)
    ensures LineRecords([first] + rest, row) == LineRecord(first, row) + LineRecords(rest, row)
  {
    assert ([first] + rest)[1..] == rest;
  }

  /**
   Whatever reads the rows: the first line of a file that is not empty is read like every other if and only
   if it starts with a digit or has no record anyway. Otherwise its record is lost. The archives' own rows
   start with the instrument's name, so a file without a header loses its first row unless that name
   starts with a digit.
   */
  lemma FirstLineKept<R>(first: string, rest: seq<string>, row: seq<string> -> Option<R>)
    requires '\n' !in first && Free(rest, '\n') && Clean(first) != ""
    ensures Usable(Terminated([first] + rest, '\n'), true, row) ==
            (if IsDigit(Clean(first)[0]) then LineRecords([first] + rest, row) else LineRecords(rest, row))
    ensures Usable(Terminated([first] + rest, '\n'), true, row) == LineRecords([first] + rest, row) <==>
            IsDigit(Clean(first)[0]) || LineRecord(first, row) == []
  {
    RecordsOfFirst(first, rest, row);
    if IsDigit(Clean(first)[0]) {
      FirstLineIsData(first, rest, row);
    } else {
      BehindHeader(first, rest, row);
      assert |LineRecords([first] + rest, row)| == |LineRecord(first, row)| + |LineRecords(rest, row)|;
    }
  }

  // ----- one line more or less -----------------------------------------------------------------

  /** In a file with a header, a line that yields no record has no influence on the others, wherever it stands. */
  lemma UnusableLineIgnored<R>(header: string, before: seq<string>, junk: string, after: seq<string>, row: seq<string> -> Option<R>, time: R -> int)
    requires Header(header) && '\n' !in header && Free(before, '\n') && '\n' !in junk && Free(after, '\n')
    requires LineRecord(junk, row) == []
    ensures Parsed(Terminated([header] + (before + [junk] + after), '\n'), row, time) ==
            Parsed(Terminated([header] + (before + after), '\n'), row, time)
  {
    BehindHeader(header, before + [junk] + after, row);
    BehindHeader(header, before + after, row);
    EmptyDropped(before, junk, after, (line: string) => LineRecord(line, row));
  }

  lemma RecordsAround<R>(before: seq<string>, line: string, after: seq<string>, row: seq<string> -> Option<R>)
    ensures LineRecords(before + [line] + after, row) == LineRecords(before, row) + LineRecord(line, row) + LineRecords(after, row)
    ensures LineRecords(before + after, row) == LineRecords(before, row) + LineRecords(after, row)
  {
    var f := (l: string) => LineRecord(l, row);
    FlatMapAppend(before + [line], after, f);
    FlatMapAppend(before, [line], f);
    FlatMapAppend(before, after, f);
    assert FlatMap([line], f) == f(line) + [];
  }

  lemma ParsedBehindHeader<R>(header: string, lines: seq<string>, row: seq<string> -> Option<R>, time: R -> int)
    requires Header(header) && '\n' !in header && Free(lines, '\n')
    ensures Parsed(Terminated([header] + lines, '\n'), row, time) == Firsts(LineRecords(lines, row), time)
  {
    BehindHeader(header, lines, row);
  }

  /** A file of rows behind a header. */
  lemma RowsParse<R>(header: string, rows: seq<seq<string>>, values: seq<R>, row: seq<string> -> Option<R>, time: R -> int)
    requires Header(header) && '\n' !in header
    requires |rows| == |values| && forall i :: 0 <= i < |rows| ==> Row(rows[i]) && row(rows[i]) == Some(values[i])
    ensures Parsed(Terminated([header] + Lines(rows), '\n'), row, time) == Firsts(values, time)
  {
    RowsReadBack(rows, values, row);
    ParsedBehindHeader(header, Lines(rows), row, time);
  }

  /** A file of one line that is taken for a header. */
  lemma OnlyHeader<R>(line: string, row: seq<string> -> Option<R>, time: R -> int)
    requires Header(line) && '\n' !in line
    ensures Parsed(Terminated([line], '\n'), row, time) == []
  {
    ParsedBehindHeader(line, [], row, time);
    assert [line] + [] == [line];
  }

  /** At most one record between earlier and later ones changes nothing: its time stands in an earlier record, or the next new one behind it is the very same. */
  ghost predicate Traceless<R>(earlier: seq<R>, record: seq<R>, later: seq<R>, time: R -> int) {
    var kept, others := |Firsts(earlier, time)|, Firsts(earlier + later, time);
    record == [] || time(record[0]) in Keys(earlier, time) || (kept < |others| && others[kept] == record[0])
  }

  lemma RecordInfluences<R>(earlier: seq<R>, record: seq<R>, later: seq<R>, time: R -> int)
    requires |record| <= 1
    ensures Firsts(earlier + record + later, time) == Firsts(earlier + later, time) <==> Traceless(earlier, record, later, time)
  {
    if record == [] {
      assert earlier + record == earlier;
    } else {
      assert record == [record[0]];
      InsertionExact(earlier, record[0], later, time);
    }
  }

  /**
   Removing one line behind the header changes what is read from the file if and only if the line has a
   record and that record leaves a trace, be its time readable or not.
   */
  lemma LineInfluences<R>(header: string, before: seq<string>, line: string, after: seq<string>, row: seq<string> -> Option<R>, time: R -> int)
    requires Header(header) && '\n' !in header && Free(before, '\n') && '\n' !in line && Free(after, '\n')
    ensures Parsed(Terminated([header] + (before + [line] + after), '\n'), row, time) ==
            Parsed(Terminated([header] + (before + after), '\n'), row, time) <==>
            Traceless(LineRecords(before, row), LineRecord(line, row), LineRecords(after, row), time)
  {
    ParsedBehindHeader(header, before + [line] + after, row, time);
    ParsedBehindHeader(header, before + after, row, time);
    RecordsAround(before, line, after, row);
    RecordInfluences(LineRecords(before, row), LineRecord(line, row), LineRecords(after, row), time);
  }

  // ----- times that cannot be read -------------------------------------------------------------

  /** The fields of the lines that have a record. */
  function UsableFields<R>(lines: seq<string>, row: seq<string> -> Option<R>): seq<seq<string>> {
    if lines == [] then []
    else (if LineRecord(lines[0], row) == [] then [] else [Split(Clean(lines[0]), ',')]) + UsableFields(lines[1..], row)
  }

  lemma {:induction false} FieldsGiveRecords<R>(lines: seq<string>, row: seq<string> -> Option<R>, at: seq<string> -> R)
    requires forall f :: row(f).Some? ==> at(f) == row(f).value
    ensures LineRecords(lines, row) == Each(UsableFields(lines, row), at)
    ensures forall i :: 0 <= i < |UsableFields(lines, row)| ==> row(UsableFields(lines, row)[i]).Some?
  {
    if lines != [] {
      FieldsGiveRecords(lines[1..], row, at);
    }
  }

  function TimeOf<R>(at: seq<string> -> R, time: R -> int): seq<string> -> int {
    (fields: seq<string>) => time(at(fields))
  }

  /**
   What is read from a file behind its header is the first usable row of each time. A row whose time cannot
   be read counts as one of time 0: there is one in the result if and only if one has no usable row of
   time 0 before it.
   */
  lemma UnreadableTimeKept<R>(
      header: string, lines: seq<string>, row: seq<string> -> Option<R>, time: R -> int, at: seq<string> -> R, unreadable: seq<string> -> bool)
    requires Header(header) && '\n' !in header && Free(lines, '\n')
    requires forall f :: row(f).Some? ==> at(f) == row(f).value && (unreadable(f) ==> time(at(f)) == 0)
    ensures
      var rows, key := UsableFields(lines, row), TimeOf(at, time);
      && Parsed(Terminated([header] + lines, '\n'), row, time) == Each(Firsts(rows, key), at)
      && (Holds(Firsts(rows, key), unreadable) <==> MarkedFirst(rows, key, unreadable, 0))
  {
    var rows := UsableFields(lines, row);
    ParsedBehindHeader(header, lines, row, time);
    FieldsGiveRecords(lines, row, at);
    FirstsOfEach(rows, at, time, TimeOf(at, time));
    MarkedKept(rows, TimeOf(at, time), unreadable, 0);
  }

  const NO_CANDLE := Candle(0, 0.0, 0.0, 0.0, 0.0, 0.0, 0.0, 0.0, false)

  function CandleAt(name: string, dec: DecimalReader): seq<string> -> Candle {
    (fields: seq<string>) => if CandleOf(fields, name, dec).Some? then CandleOf(fields, name, dec).value else NO_CANDLE
  }

  predicate UnreadableTime(fields: seq<string>) { |fields| <= 8 || FromChars(fields[8]).None? }

  /** For candle files: a row without a readable open time comes out exactly when one has no usable row of time 0 before it. */
  lemma UnreadableCandleKept(header: string, lines: seq<string>, name: string, dec: DecimalReader)
    requires Header(header) && '\n' !in header && Free(lines, '\n')
    ensures
      var rows, key := UsableFields(lines, CandleRow(name, dec)), TimeOf(CandleAt(name, dec), CandleTime);
      && Parsed(Terminated([header] + lines, '\n'), CandleRow(name, dec), CandleTime) == Each(Firsts(rows, key), CandleAt(name, dec))
      && (Holds(Firsts(rows, key), UnreadableTime) <==> MarkedFirst(rows, key, UnreadableTime, 0))
  {
    UnreadableTimeKept(header, lines, CandleRow(name, dec), CandleTime, CandleAt(name, dec), UnreadableTime);
  }

  const NO_RATE := FundingRate("", 0.0, 0)

  function FundingAt(name: string, dec: DecimalReader): seq<string> -> FundingRate {
    (fields: seq<string>) => if FundingRateOf(fields, name, dec).Some? then FundingRateOf(fields, name, dec).value else NO_RATE
  }

  predicate UnreadableFundingTime(fields: seq<string>) {
    |fields| < 3 || FromChars(if |fields| >= 4 then fields[3] else fields[2]).None?
  }

  /** The same for funding files. */
  lemma UnreadableFundingKept(header: string, lines: seq<string>, name: string, dec: DecimalReader)
    requires Header(header) && '\n' !in header && Free(lines, '\n')
    ensures
      var rows, key := UsableFields(lines, FundingRow(name, dec)), TimeOf(FundingAt(name, dec), FundingTime);
      && Parsed(Terminated([header] + lines, '\n'), FundingRow(name, dec), FundingTime) == Each(Firsts(rows, key), FundingAt(name, dec))
      && (Holds(Firsts(rows, key), UnreadableFundingTime) <==> MarkedFirst(rows, key, UnreadableFundingTime, 0))
  {
    UnreadableTimeKept(header, lines, FundingRow(name, dec), FundingTime, FundingAt(name, dec), UnreadableFundingTime);
  }
}
