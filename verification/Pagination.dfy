/** The paging downloads of candles and funding rates as loops. */
module Pagination {
  import opened Wrappers
  import opened PagingSpec

  datatype Candle<D> = Candle(ts: nat, confirm: bool, data: D)

  datatype FundingRate<D> = FundingRate(fundingTime: nat, data: D)

  function CandleTime<D>(candle: Candle<D>): nat { candle.ts }

  function FundingTime<D>(rate: FundingRate<D>): nat { rate.fundingTime }

  function Flatten<T>(pages: seq<seq<T>>): seq<T> {
    if pages == [] then [] else Flatten(pages[..|pages| - 1]) + pages[|pages| - 1]
  }

  lemma FlattenSnoc<T>(pages: seq<seq<T>>, page: seq<T>)
    ensures Flatten(pages + [page]) == Flatten(pages) + page
  {
    assert (pages + [page])[..|pages|] == pages;
  }

  /** Newest first, so a candle that is still forming stands at the front. */
  function WithoutForming<D>(candles: seq<Candle<D>>): seq<Candle<D>> {
    if candles != [] && !candles[0].confirm then candles[1..] else candles
  }

  /** What the caller asked for, without the newest record if it is still forming. */
  function Finished<D>(ascending: seq<Candle<D>>): seq<Candle<D>> {
    if ascending != [] && !ascending[|ascending| - 1].confirm then ascending[..|ascending| - 1] else ascending
  }

  lemma FinishedReversed<D>(wanted: seq<Candle<D>>)
    ensures Reverse(WithoutForming(Reverse(wanted))) == Finished(wanted)
  {
  }

  function WrittenPages<D>(pages: seq<seq<Candle<D>>>): (written: seq<seq<Candle<D>>>)
    ensures |written| == |pages|
  {
    if pages == [] then [] else WrittenPages(pages[..|pages| - 1]) + [WithoutForming(pages[|pages| - 1])]
  }

  lemma WrittenSnoc<D>(pages: seq<seq<Candle<D>>>, page: seq<Candle<D>>)
    ensures WrittenPages(pages + [page]) == WrittenPages(pages) + [WithoutForming(page)]
  {
    assert (pages + [page])[..|pages|] == pages;
  }

  ghost predicate Answered<T>(pages: seq<seq<T>>) {
    forall k :: 0 <= k < |pages| ==> pages[k] != []
  }

  /** The pages so far, what has been collected from them and what the writer has been given. */
  ghost predicate Recorded<D>(pages: seq<seq<Candle<D>>>, collected: seq<Candle<D>>, written: seq<seq<Candle<D>>>) {
    Answered(pages) && Flatten(pages) == collected && written == WrittenPages(pages)
  }

  lemma RecordedSnoc<D>(pages: seq<seq<Candle<D>>>, collected: seq<Candle<D>>, written: seq<seq<Candle<D>>>, page: seq<Candle<D>>)
    requires Recorded(pages, collected, written) && page != []
    ensures Recorded(pages + [page], collected + page, written + [WithoutForming(page)])
  {
    FlattenSnoc(pages, page);
    WrittenSnoc(pages, page);
  }

  /**
   The loop returns exactly the wanted records of the history as it stood at the first request, although
   the history grows and pages have any size. `written` lists the pages handed to the writer.
   */
  method GetHistoricalPrices<D>(venue: Venue<Candle<D>>, from: int, to: int)
      returns (candles: seq<Candle<D>>, written: seq<seq<Candle<D>>>, ghost pages: seq<seq<Candle<D>>>)
    requires Growing(venue) && venue.ts == CandleTime && from != -1
    ensures candles == Finished(Wanted(venue, from, to))
    ensures Answered(pages) && Flatten(pages) == Reverse(Wanted(venue, from, to)) && written == WrittenPages(pages)
  {
    var retVal, page, request := [], [], 0;
    written, pages := [], [];
    ghost var rest: nat := |Wanted(venue, from, to)|;
    if from < to {
      page := Fetch(venue, 0, from, to);
    }
    Begins(venue, from, to);
    while page != []
      invariant Underway(venue, from, to, retVal, page, rest)
      invariant Recorded(pages, retVal, written)
      decreases rest
    {
      Continues(venue, from, to, request + 1, retVal, page, rest);
      rest := rest - |page|;
      RecordedSnoc(pages, retVal, written, page);
      retVal := retVal + page;
      var lastToTime := page[|page| - 1].ts;
      pages := pages + [page];
      if !page[0].confirm {
        page := page[1..];
      }
      written := written + [page];
      page := [];
      request := request + 1;
      if from < lastToTime {
        page := Fetch(venue, request, from, lastToTime);
      }
    }
    Finishes(venue, from, to, retVal, rest);
    FinishedReversed(Wanted(venue, from, to));
    if retVal != [] {
      if !retVal[0].confirm {
        retVal := retVal[1..];
      }
    }
    candles := Reverse(retVal);
  }

  /** The same loop without the forming candle. */
  method GetFundingRates<D>(venue: Venue<FundingRate<D>>, from: int, to: int) returns (rates: seq<FundingRate<D>>)
    requires Growing(venue) && venue.ts == FundingTime && from != -1
    ensures rates == Wanted(venue, from, to)
  {
    var retVal, page, request := [], [], 0;
    ghost var rest: nat := |Wanted(venue, from, to)|;
    if from < to {
      page := Fetch(venue, 0, from, to);
    }
    Begins(venue, from, to);
    while page != []
      invariant Underway(venue, from, to, retVal, page, rest)
      decreases rest
    {
      Continues(venue, from, to, request + 1, retVal, page, rest);
      rest := rest - |page|;
      retVal := retVal + page;
      var lastToTime := page[|page| - 1].fundingTime;
      page := [];
      request := request + 1;
      if from < lastToTime {
        page := Fetch(venue, request, from, lastToTime);
      }
    }
    Finishes(venue, from, to, retVal, rest);
    rates := Reverse(retVal);
  }

  /** Every page after the first starts with a finished candle. */
  ghost predicate LaterPagesFinished<D>(pages: seq<seq<Candle<D>>>) {
    forall k :: 1 <= k < |pages| && pages[k] != [] ==> pages[k][0].confirm
  }

  lemma {:induction false} WrittenLength<D>(pages: seq<seq<Candle<D>>>)
    requires Answered(pages) && pages != []
    ensures |Flatten(WrittenPages(pages))| <= |WithoutForming(Flatten(pages))|
    ensures LaterPagesFinished(pages) ==> Flatten(WrittenPages(pages)) == WithoutForming(Flatten(pages))
    ensures |Flatten(WrittenPages(pages))| == |WithoutForming(Flatten(pages))| ==> LaterPagesFinished(pages)
  {
    var n := |pages| - 1;
    var before, page := pages[..n], pages[n];
    assert pages == before + [page];
    FlattenSnoc(before, page);
    WrittenSnoc(before, page);
    FlattenSnoc(WrittenPages(before), WithoutForming(page));
    if n > 0 {
      WrittenLength(before);
      FlattenAnswered(before);
    }
  }

  lemma {:induction false} FlattenAnswered<T>(pages: seq<seq<T>>)
    requires Answered(pages) && pages != []
    ensures Flatten(pages) != [] && Flatten(pages)[0] == pages[0][0]
  {
    if |pages| > 1 {
      FlattenAnswered(pages[..|pages| - 1]);
    }
  }

  /**
   The pages given to the writer, taken together, are the returned series newest first, if and only if no
   page but the first starts with a candle that is still forming.
   */
  lemma WriterAgrees<D>(pages: seq<seq<Candle<D>>>, wanted: seq<Candle<D>>)
    requires Answered(pages) && Flatten(pages) == Reverse(wanted)
    ensures Flatten(WrittenPages(pages)) == Reverse(Finished(wanted)) <==> LaterPagesFinished(pages)
  {
    assert WithoutForming(Reverse(wanted)) == Reverse(Finished(wanted));
    if pages != [] {
      WrittenLength(pages);
    }
  }

  /** One candle to a page. */
  function Singles<T>(rows: seq<T>): (pages: seq<seq<T>>)
    ensures |pages| == |rows| && forall i :: 0 <= i < |rows| ==> pages[i] == [rows[i]]
  {
    seq(|rows|, i requires 0 <= i < |rows| => [rows[i]])
  }

  lemma {:induction false} FlattenSingles<T>(rows: seq<T>)
    ensures Flatten(Singles(rows)) == rows
  {
    if rows != [] {
      FlattenSingles(rows[..|rows| - 1]);
      assert Singles(rows)[..|rows| - 1] == Singles(rows[..|rows| - 1]);
    }
  }

  ghost predicate AgreesHowever<D(!new)>(wanted: seq<Candle<D>>) {
    forall pages: seq<seq<Candle<D>>> :: Answered(pages) && Flatten(pages) == Reverse(wanted) ==>
      Flatten(WrittenPages(pages)) == Reverse(Finished(wanted))
  }

  /** However the venue cuts its pages, writer and result agree exactly when only the newest wanted candle can be forming. */
  lemma WriterAgreesForAllPageSizes<D(!new)>(wanted: seq<Candle<D>>)
    ensures AgreesHowever(wanted) <==> forall i :: 0 <= i < |wanted| - 1 ==> wanted[i].confirm
  {
    if forall i :: 0 <= i < |wanted| - 1 ==> wanted[i].confirm {
      forall pages: seq<seq<Candle<D>>> | Answered(pages) && Flatten(pages) == Reverse(wanted)
        ensures Flatten(WrittenPages(pages)) == Reverse(Finished(wanted))
      {
        forall k | 1 <= k < |pages| ensures pages[k][0].confirm {
          LaterElement(pages, k);
          var i :| 1 <= i < |wanted| && Reverse(wanted)[i] == pages[k][0];
          assert pages[k][0] == wanted[|wanted| - 1 - i];
        }
        WriterAgrees(pages, wanted);
      }
    }
    if AgreesHowever(wanted) {
      var pages := Singles(Reverse(wanted));
      FlattenSingles(Reverse(wanted));
      WriterAgrees(pages, wanted);
      forall i | 0 <= i < |wanted| - 1 ensures wanted[i].confirm {
        assert pages[|wanted| - 1 - i] == [wanted[i]];
      }
    }
  }

  lemma {:induction false} LaterElement<T>(pages: seq<seq<T>>, k: nat)
    requires Answered(pages) && 1 <= k < |pages|
    ensures exists i :: 1 <= i < |Flatten(pages)| && Flatten(pages)[i] == pages[k][0]
  {
    var n := |pages| - 1;
    FlattenAnswered(pages[..n]);
    if k < n {
      LaterElement(pages[..n], k);
      var i :| 1 <= i < |Flatten(pages[..n])| && Flatten(pages[..n])[i] == pages[..n][k][0];
      assert Flatten(pages)[i] == pages[k][0];
    } else {
      assert Flatten(pages)[|Flatten(pages[..n])|] == pages[k][0];
    }
  }

  /** What is left out is the newest candle while it is forming. */
  lemma FinishedExactly<D>(wanted: seq<Candle<D>>, x: Candle<D>)
    requires Ascending(wanted, CandleTime)
    ensures x in Finished(wanted) <==> x in wanted && (x.confirm || x.ts < wanted[|wanted| - 1].ts)
    ensures Ascending(Finished(wanted), CandleTime)
  {
    if wanted != [] {
      var n := |wanted| - 1;
      assert wanted == wanted[..n] + [wanted[n]];
      assert forall i :: 0 <= i < n ==> CandleTime(wanted[i]) < CandleTime(wanted[n]);
      if x in wanted[..n] {
        var i :| 0 <= i < n && wanted[i] == x;
        assert CandleTime(wanted[i]) < CandleTime(wanted[n]);
      }
    }
  }

  /** A newer one of the wanted records. */
  ghost predicate Newer<D(!new)>(venue: Venue<Candle<D>>, from: int, to: int, than: Candle<D>) {
    exists y :: y in venue.snapshot(0) && than.ts < y.ts < to && from < y.ts
  }

  /** What the download returns, record by record and in ascending order: those wanted, except one that is still forming and has no newer one. */
  lemma ReturnedExactly<D(!new)>(venue: Venue<Candle<D>>, from: int, to: int, x: Candle<D>)
    requires Growing(venue) && venue.ts == CandleTime
    ensures x in Finished(Wanted(venue, from, to)) <==>
            x in venue.snapshot(0) && from < x.ts < to && (x.confirm || Newer(venue, from, to, x))
    ensures Ascending(Finished(Wanted(venue, from, to)), CandleTime)
  {
    var wanted := Wanted(venue, from, to);
    WantedExactly(venue, from, to, x);
    FinishedExactly(wanted, x);
    forall y: Candle<D> | y in wanted ensures y in venue.snapshot(0) && from < y.ts < to && y.ts <= wanted[|wanted| - 1].ts {
      WantedExactly(venue, from, to, y);
      NewestLast(wanted, y);
    }
    forall y: Candle<D> | y in venue.snapshot(0) && from < y.ts < to ensures y in wanted {
      WantedExactly(venue, from, to, y);
    }
  }

  lemma NewestLast<D>(wanted: seq<Candle<D>>, y: Candle<D>)
    requires Ascending(wanted, CandleTime) && y in wanted
    ensures y.ts <= wanted[|wanted| - 1].ts
  {
    var i :| 0 <= i < |wanted| && wanted[i] == y;
    assert i < |wanted| - 1 ==> CandleTime(wanted[i]) < CandleTime(wanted[|wanted| - 1]);
  }
}
