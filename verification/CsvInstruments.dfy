/** Which rows of an archive file are read for an instrument, told from their fields alone. */
module CsvInstruments {
  import opened Wrappers
  import opened Text
  import opened Numerals
  import opened FirstByKey
  import opened CsvText
  import opened CsvParsing
  import opened CsvInfluence

  // ----- rows ----------------------------------------------------------------------------------

  /** A volume that may be missing is missing, or can be read. */
  predicate OptionalReadable(s: string, dec: DecimalReader) { s == "None" || s == "" || dec(s).Some? }

  function OptionalValue(s: string, dec: DecimalReader): real
    requires OptionalReadable(s, dec)
  {
    if s == "None" || s == "" then 0.0 else dec(s).value
  }

  /** Enough fields, the wanted instrument if one is named, five decimals that can be read and two that can or are missing. */
  predicate CandleReadable(fields: seq<string>, name: string, dec: DecimalReader) {
    && |fields| >= 10 && (name == "" || fields[0] == name)
    && dec(fields[1]).Some? && dec(fields[2]).Some? && dec(fields[3]).Some? && dec(fields[4]).Some? && dec(fields[5]).Some?
    && OptionalReadable(fields[6], dec) && OptionalReadable(fields[7], dec)
  }

  /** A row gives a candle exactly then, and its fields stand in the documented columns; an unreadable time gives 0. */
  lemma CandleExactly(fields: seq<string>, name: string, dec: DecimalReader)
    ensures CandleOf(fields, name, dec).Some? <==> CandleReadable(fields, name, dec)
    ensures CandleReadable(fields, name, dec) ==>
      var candle := CandleOf(fields, name, dec).value;
      && dec(fields[1]) == Some(candle.o) && dec(fields[2]) == Some(candle.h) && dec(fields[3]) == Some(candle.l)
      && dec(fields[4]) == Some(candle.c) && dec(fields[5]) == Some(candle.vol)
      && candle.volCcy == OptionalValue(fields[6], dec) && candle.volCcyQuote == OptionalValue(fields[7], dec)
      && candle.ts == (if FromChars(fields[8]).Some? then FromChars(fields[8]).value else 0)
      && (candle.confirm <==> fields[9] == "1" || fields[9] == "true" || fields[9] == "True")
  {
  }

  /** A row gives a funding rate exactly with three fields, the wanted instrument if one is named, and a rate that is there and can be read. */
  lemma FundingExactly(fields: seq<string>, name: string, dec: DecimalReader)
    ensures FundingRateOf(fields, name, dec).Some? <==>
            |fields| >= 3 && (name == "" || fields[0] == name) && fields[1] != "" && fields[1] != "None" && dec(fields[1]).Some?
    ensures FundingRateOf(fields, name, dec).Some? ==>
      var rate, time := FundingRateOf(fields, name, dec).value, fields[if |fields| >= 4 then 3 else 2];
      && rate.instId == fields[0] && dec(fields[1]) == Some(rate.fundingRate)
      && rate.fundingTime == if FromChars(time).Some? then FromChars(time).value else 0
  {
  }

  // ----- times ---------------------------------------------------------------------------------

  lemma {:induction false} DigitsStop(digits: string, rest: string)
    requires AllDigits(digits) && (rest == "" || !IsDigit(rest[0]))
    ensures Digits(digits + rest) == digits
  {
    if digits == "" {
      assert digits + rest == rest;
    } else {
      DigitsStop(digits[1..], rest);
      assert (digits + rest)[1..] == digits[1..] + rest;
      assert [digits[0]] + digits[1..] == digits;
    }
  }

  lemma NegativeTime(digits: string, rest: string)
    requires Digits(digits + rest) == digits
    ensures FromChars(['-'] + (digits + rest)) == if digits != "" && FitsInt64(-(Value(digits) as int)) then Some(-(Value(digits) as int)) else None
  {
    assert (['-'] + (digits + rest))[1..] == digits + rest;
  }

  lemma PositiveTime(digits: string, rest: string)
    requires Digits(digits + rest) == digits && digits != ""
    ensures FromChars(digits + rest) == if FitsInt64(Value(digits)) then Some(Value(digits)) else None
  {
    assert (digits + rest)[0] == digits[0];
  }

  /** A time is the number at the start of its field, whatever follows, with a minus but no plus sign; no number, or one beyond 64 bits, is unreadable. */
  lemma TimeExactly(digits: string, rest: string)
    requires AllDigits(digits) && (rest == "" || !IsDigit(rest[0]))
    ensures FromChars(['-'] + (digits + rest)) == if digits != "" && FitsInt64(-(Value(digits) as int)) then Some(-(Value(digits) as int)) else None
    ensures digits != "" ==> FromChars(digits + rest) == if FitsInt64(Value(digits)) then Some(Value(digits)) else None
    ensures rest == "" || rest[0] != '-' ==> FromChars(rest).None?
  {
    DigitsStop(digits, rest);
    NegativeTime(digits, rest);
    if digits != "" {
      PositiveTime(digits, rest);
    }
  }

  // ----- files ---------------------------------------------------------------------------------

  /** The lines whose first field is the name. */
  function OwnLines(lines: seq<string>, name: string): seq<string> {
    if lines == [] then []
    else (if IsOwn(lines[0], name) then [lines[0]] else []) + OwnLines(lines[1..], name)
  }

  predicate IsOwn(line: string, name: string) {
    Split(Clean(line), ',') != [] && Split(Clean(line), ',')[0] == name
  }

  /** The reader gives a record only for fields that start with the name. */
  ghost predicate ReadsOnly<R(!new)>(row: seq<string> -> Option<R>, name: string) {
    forall fields :: row(fields).Some? ==> fields != [] && fields[0] == name
  }

  lemma {:induction false} OthersHaveNoRecord<R(!new)>(lines: seq<string>, row: seq<string> -> Option<R>, name: string)
    requires ReadsOnly(row, name)
    ensures LineRecords(OwnLines(lines, name), row) == LineRecords(lines, row)
    ensures |OwnLines(lines, name)| <= |lines| && forall i :: 0 <= i < |OwnLines(lines, name)| ==> OwnLines(lines, name)[i] in lines
  {
    if lines != [] {
      OthersHaveNoRecord(lines[1..], row, name);
      var own := OwnLines(lines[1..], name);
      assert lines == [lines[0]] + lines[1..];
      RecordsOfFirst(lines[0], lines[1..], row);
      RecordsOfFirst(lines[0], own, row);
      if !IsOwn(lines[0], name) {
        assert LineRecord(lines[0], row) == [];
        assert OwnLines(lines, name) == own;
      }
    }
  }

  /**
   For a file with a header, read for one instrument: rows of other instruments, wherever they stand
   between its own and whatever their times, leave the result as if they were not there.
   */
  lemma OthersAbsent<R(!new)>(header: string, lines: seq<string>, row: seq<string> -> Option<R>, time: R -> int, name: string)
    requires Header(header) && '\n' !in header && Free(lines, '\n') && ReadsOnly(row, name)
    ensures Parsed(Terminated([header] + lines, '\n'), row, time) == Parsed(Terminated([header] + OwnLines(lines, name), '\n'), row, time)
  {
    OthersHaveNoRecord(lines, row, name);
    ParsedBehindHeader(header, lines, row, time);
    ParsedBehindHeader(header, OwnLines(lines, name), row, time);
  }

  lemma OtherCandlesAbsent(header: string, lines: seq<string>, name: string, dec: DecimalReader)
    requires Header(header) && '\n' !in header && Free(lines, '\n') && name != ""
    ensures Parsed(Terminated([header] + lines, '\n'), CandleRow(name, dec), CandleTime) ==
            Parsed(Terminated([header] + OwnLines(lines, name), '\n'), CandleRow(name, dec), CandleTime)
  {
    forall fields | CandleRow(name, dec)(fields).Some? ensures fields != [] && fields[0] == name {
      CandleExactly(fields, name, dec);
    }
    OthersAbsent(header, lines, CandleRow(name, dec), CandleTime, name);
  }

  lemma OtherRatesAbsent(header: string, lines: seq<string>, name: string, dec: DecimalReader)
    requires Header(header) && '\n' !in header && Free(lines, '\n') && name != ""
    ensures Parsed(Terminated([header] + lines, '\n'), FundingRow(name, dec), FundingTime) ==
            Parsed(Terminated([header] + OwnLines(lines, name), '\n'), FundingRow(name, dec), FundingTime)
  {
    forall fields | FundingRow(name, dec)(fields).Some? ensures fields != [] && fields[0] == name {
      FundingExactly(fields, name, dec);
    }
    OthersAbsent(header, lines, FundingRow(name, dec), FundingTime, name);
  }

  // ----- files of several instruments ----------------------------------------------------------

  /** A row of a file: its fields, the instrument they name and the record they hold. */
  datatype Entry<R> = Entry(name: string, record: R, fields: seq<string>)

  /** The records to be read for a name: all of them without one. */
  function Wanted<R>(all: seq<Entry<R>>, name: string): seq<R> {
    if all == [] then []
    else (if name == "" || all[0].name == name then [all[0].record] else []) + Wanted(all[1..], name)
  }

  /** The lines of a file, one for each row. */
  function Written<R>(all: seq<Entry<R>>): (lines: seq<string>)
    ensures |lines| == |all|
  {
    if all == [] then [] else [Join(all[0].fields, ',')] + Written(all[1..])
  }

  ghost predicate Reads<R>(e: Entry<R>, name: string, row: seq<string> -> Option<R>) {
    Row(e.fields) && row(e.fields) == if name == "" || e.name == name then Some(e.record) else None
  }

  lemma {:induction false} WrittenReadsBack<R>(all: seq<Entry<R>>, name: string, row: seq<string> -> Option<R>)
    requires forall i :: 0 <= i < |all| ==> Reads(all[i], name, row)
    ensures Free(Written(all), '\n') && LineRecords(Written(all), row) == Wanted(all, name)
  {
    if all != [] {
      WrittenReadsBack(all[1..], name, row);
      assert Reads(all[0], name, row);
      RowReadsBack(all[0].fields, row);
      RecordsOfFirst(Join(all[0].fields, ','), Written(all[1..]), row);
    }
  }

  lemma MixedFileReads<R>(header: string, all: seq<Entry<R>>, name: string, row: seq<string> -> Option<R>, time: R -> int)
    requires Header(header) && '\n' !in header && forall i :: 0 <= i < |all| ==> Reads(all[i], name, row)
    ensures Parsed(Terminated([header] + Written(all), '\n'), row, time) == Firsts(Wanted(all, name), time)
  {
    WrittenReadsBack(all, name, row);
    ParsedBehindHeader(header, Written(all), row, time);
  }

  /** The fields are the documented columns of the candle. */
  ghost predicate HoldsCandle(e: Entry<Candle>, show: real -> string, dec: DecimalReader) {
    Plain(e.name) && Writable(e.record, show, dec) && e.fields == CandleFields(e.record, e.name, show)
  }

  lemma CandleEntryReads(e: Entry<Candle>, name: string, show: real -> string, dec: DecimalReader)
    requires HoldsCandle(e, show, dec)
    ensures Reads(e, name, CandleRow(name, dec))
  {
    CandleRowPlain(e.record, e.name, show, dec);
    CandleReadsBack(e.record, e.name, show, dec);
    CandleExactly(e.fields, name, dec);
    CandleExactly(e.fields, e.name, dec);
  }

  /**
   A file holding any candles of any instruments in any order gives, for a name, the first candle of each
   time among those of that instrument, and without a name among all of them.
   */
  lemma MixedArchiveReadsBack(header: string, all: seq<Entry<Candle>>, name: string, show: real -> string, dec: DecimalReader)
    requires Header(header) && '\n' !in header
    requires forall i :: 0 <= i < |all| ==> HoldsCandle(all[i], show, dec)
    ensures Parsed(Terminated([header] + Written(all), '\n'), CandleRow(name, dec), CandleTime) == Firsts(Wanted(all, name), CandleTime)
  {
    forall i | 0 <= i < |all| ensures Reads(all[i], name, CandleRow(name, dec)) {
      CandleEntryReads(all[i], name, show, dec);
    }
    MixedFileReads(header, all, name, CandleRow(name, dec), CandleTime);
  }

  /** The fields are those of the rate in either documented format. */
  ghost predicate HoldsRate(e: Entry<FundingRate>, show: real -> string, dec: DecimalReader) {
    && e.name == e.record.instId && Plain(e.name) && Shown(e.record.fundingRate, show, dec) && FitsInt64(e.record.fundingTime)
    && if |e.fields| == 4 then Plain(e.fields[2]) && e.fields == FundingFields(e.record, Some(e.fields[2]), show)
       else e.fields == FundingFields(e.record, None, show)
  }

  lemma RateEntryReads(e: Entry<FundingRate>, name: string, show: real -> string, dec: DecimalReader)
    requires HoldsRate(e, show, dec)
    ensures Reads(e, name, FundingRow(name, dec))
  {
    IntTextPlain(e.record.fundingTime);
    FundingReadsBack(e.record, if |e.fields| == 4 then Some(e.fields[2]) else None, show, dec);
    FundingExactly(e.fields, name, dec);
    FundingExactly(e.fields, e.name, dec);
  }

  /** The same for funding rates, the two formats mixed as they come. */
  lemma MixedRatesReadBack(header: string, all: seq<Entry<FundingRate>>, name: string, show: real -> string, dec: DecimalReader)
    requires Header(header) && '\n' !in header
    requires forall i :: 0 <= i < |all| ==> HoldsRate(all[i], show, dec)
    ensures Parsed(Terminated([header] + Written(all), '\n'), FundingRow(name, dec), FundingTime) == Firsts(Wanted(all, name), FundingTime)
  {
    forall i | 0 <= i < |all| ensures Reads(all[i], name, FundingRow(name, dec)) {
      RateEntryReads(all[i], name, show, dec);
    }
    MixedFileReads(header, all, name, FundingRow(name, dec), FundingTime);
  }
}
