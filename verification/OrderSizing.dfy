/** Sizes between the caller's base units and the venue's contracts, in exact reals. */
module OrderSizing {
  import opened Wrappers
  import opened InstrumentIndex
  import OrderIds

  const EPSILON: real := 0.000000001

  function FloorToLot(contracts: real, lotSz: real): real {
    if lotSz <= 0.0 then contracts else WholeLots(Lots(contracts, lotSz), lotSz)
  }

  function Lots(contracts: real, lotSz: real): int
    requires lotSz > 0.0
  {
    (Over(contracts, lotSz) + EPSILON).Floor
  }

  function WholeLots(lots: int, lotSz: real): real { Times(lots as real, lotSz) }

  function Times(a: real, b: real): real { a * b }

  function Over(a: real, b: real): real
    requires b > 0.0
  {
    a / b
  }

  lemma TimesOrder(a: real, b: real, c: real)
    requires c > 0.0
    ensures a < b <==> Times(a, c) < Times(b, c)
  {
    if a < b {
      assert (b - a) * c > 0.0;
    } else {
      assert (a - b) * c >= 0.0;
    }
  }

  lemma TimesSum(a: real, b: real, c: real)
    ensures Times(a + b, c) == Times(a, c) + Times(b, c)
  {
  }

  lemma TimesOver(a: real, c: real)
    requires c > 0.0
    ensures Times(Over(a, c), c) == a && Over(Times(a, c), c) == a
  {
  }

  lemma FloorIs(x: real, n: int)
    ensures x.Floor == n <==> n as real <= x < n as real + 1.0
  {
  }

  /**
   The number of lots is the only whole number that exceeds the wanted size by at most a billionth lot and
   falls short of it by less than a lot less that billionth.
   */
  lemma LotsUnique(contracts: real, lotSz: real, lots: int)
    requires lotSz > 0.0
    ensures lots == Lots(contracts, lotSz) <==>
            Times(lots as real - 0.000000001, lotSz) <= contracts < Times(lots as real + 1.0 - 0.000000001, lotSz)
  {
    var quotient := Over(contracts, lotSz);
    TimesOver(contracts, lotSz);
    FloorIs(quotient + EPSILON, lots);
    TimesOrder(quotient, lots as real - EPSILON, lotSz);
    TimesOrder(quotient, lots as real + 1.0 - EPSILON, lotSz);
  }

  /** So rounding never sends more than a billionth lot too much, nor a whole lot too little. */
  lemma Rounding(contracts: real, lotSz: real)
    requires lotSz > 0.0
    ensures contracts - lotSz < FloorToLot(contracts, lotSz) <= contracts + Times(0.000000001, lotSz)
  {
    var lots := Lots(contracts, lotSz);
    LotsUnique(contracts, lotSz, lots);
    TimesSum(lots as real - EPSILON, EPSILON, lotSz);
    TimesSum(lots as real, 1.0 - EPSILON, lotSz);
    TimesSum(1.0 - EPSILON, EPSILON, lotSz);
    TimesOrder(0.0, EPSILON, lotSz);
  }

  lemma WholeLotsKept(lots: int, lotSz: real)
    requires lotSz > 0.0
    ensures FloorToLot(WholeLots(lots, lotSz), lotSz) == WholeLots(lots, lotSz)
  {
    LotsUnique(WholeLots(lots, lotSz), lotSz, lots);
    TimesOrder(lots as real - EPSILON, lots as real, lotSz);
    TimesOrder(lots as real, lots as real + 1.0 - EPSILON, lotSz);
  }

  lemma Idempotent(contracts: real, lotSz: real)
    ensures FloorToLot(FloorToLot(contracts, lotSz), lotSz) == FloorToLot(contracts, lotSz)
  {
    if lotSz > 0.0 {
      WholeLotsKept(Lots(contracts, lotSz), lotSz);
    }
  }

  lemma Monotone(smaller: real, larger: real, lotSz: real)
    requires smaller <= larger
    ensures FloorToLot(smaller, lotSz) <= FloorToLot(larger, lotSz)
  {
    if lotSz > 0.0 {
      var m, n := Lots(smaller, lotSz), Lots(larger, lotSz);
      LotsUnique(smaller, lotSz, m);
      LotsUnique(larger, lotSz, n);
      assert m as real < n as real + 1.0 by {
        TimesOrder(m as real - EPSILON, n as real + 1.0 - EPSILON, lotSz);
      }
      assert !(n < m);
      TimesOrder(n as real, m as real, lotSz);
    }
  }

  datatype Side = Buy | Sell

  datatype OrderType = PostOnly | Market

  datatype Order = Order(instId: string, clOrdId: string, side: Side, ordType: OrderType, sz: real, px: Option<real>, reduceOnly: bool)

  datatype Refusal = Permanent | MinNotional

  datatype InstrumentSpec = InstrumentSpec(symbol: string, tickSize: real, qtyStep: real, minQty: real, maxQty: real, minNotional: real)

  /** What the caller is told about an instrument, in base units. */
  function SpecOf(instruments: map<string, InstrumentInfo>, symbol: string): Result<InstrumentSpec, Refusal> {
    if symbol !in instruments then Err(Permanent)
    else
      var info := instruments[symbol];
      Ok(InstrumentSpec(
        symbol, info.tickSize, Times(info.lotSz, info.ctVal), Times(info.minSz, info.ctVal),
        if info.maxLmtSz > 0.0 then Times(info.maxLmtSz, info.ctVal) else 0.0, 0.0))
  }

  /** The contracts sent for a quantity in base units. */
  function Sized(instruments: map<string, InstrumentInfo>, symbol: string, qty: real): Result<real, Refusal>
    requires symbol in instruments ==> instruments[symbol].ctVal > 0.0
  {
    if symbol !in instruments then Err(Permanent)
    else
      var contracts := FloorToLot(Over(qty, instruments[symbol].ctVal), instruments[symbol].lotSz);
      if contracts <= 0.0 || contracts < instruments[symbol].minSz then Err(MinNotional) else Ok(contracts)
  }

  function PostOnlyLimit(
      instruments: map<string, InstrumentInfo>, clientOrderId: string, symbol: string, side: Side, qty: real, price: real,
      reduceOnly: bool): Result<Order, Refusal>
    requires symbol in instruments ==> instruments[symbol].ctVal > 0.0
  {
    match Sized(instruments, symbol, qty)
    case Err(refusal) => Err(refusal)
    case Ok(contracts) => Ok(Order(instruments[symbol].instId, OrderIds.ToVenue(clientOrderId), side, PostOnly, contracts, Some(price), reduceOnly))
  }

  function ReduceOnlyMarket(
      instruments: map<string, InstrumentInfo>, clientOrderId: string, symbol: string, side: Side, qty: real): Result<Order, Refusal>
    requires symbol in instruments ==> instruments[symbol].ctVal > 0.0
  {
    match Sized(instruments, symbol, qty)
    case Err(refusal) => Err(refusal)
    case Ok(contracts) => Ok(Order(instruments[symbol].instId, OrderIds.ToVenue(clientOrderId), side, Market, contracts, None, true))
  }

  /**
   After a refresh the numbers reported for a symbol are those of the instrument it resolves to, in base
   units: no contract value makes a conversion meaningless, and an upper limit is never learned.
   */
  lemma RefreshedSpecs(instruments: map<string, InstrumentInfo>, catalogue: seq<Instrument>, symbol: string)
    requires Resolves(instruments, catalogue)
    ensures SpecOf(instruments, symbol).Ok? <==> Choice(catalogue, symbol).Some?
    ensures symbol in instruments ==>
      var chosen, spec := catalogue[Choice(catalogue, symbol).value], SpecOf(instruments, symbol).value;
      var ctVal := instruments[symbol].ctVal;
      && ctVal > 0.0 && (chosen.ctVal > 0.0 ==> ctVal == chosen.ctVal)
      && instruments[symbol].instId == chosen.instId && Base(chosen.instId) == symbol && chosen.live
      && spec.symbol == symbol && spec.tickSize == chosen.tickSz && spec.maxQty == 0.0
      && spec.qtyStep == Times(chosen.lotSz, ctVal) && spec.minQty == Times(chosen.minSz, ctVal)
  {
  }

  /** On the reported grid an order is accepted exactly from the reported minimum on, sent as that many lots, and its fill converts back. */
  lemma GridQuantities(instruments: map<string, InstrumentInfo>, symbol: string, steps: int)
    requires symbol in instruments && instruments[symbol].ctVal > 0.0 && instruments[symbol].lotSz > 0.0
    ensures
      var spec, qty := SpecOf(instruments, symbol).value, WholeLots(steps, SpecOf(instruments, symbol).value.qtyStep);
      var sized := Sized(instruments, symbol, qty);
      && (sized.Ok? <==> qty > 0.0 && qty >= spec.minQty)
      && (sized.Ok? ==> sized.value == WholeLots(steps, instruments[symbol].lotSz) && Times(sized.value, instruments[symbol].ctVal) == qty)
  {
    var info := instruments[symbol];
    var contracts := WholeLots(steps, info.lotSz);
    TimesAssociates(steps as real, info.lotSz, info.ctVal);
    TimesOver(contracts, info.ctVal);
    WholeLotsKept(steps, info.lotSz);
    TimesOrder(contracts, info.minSz, info.ctVal);
    TimesOrder(0.0, contracts, info.ctVal);
  }

  lemma TimesAssociates(a: real, b: real, c: real)
    ensures Times(a, Times(b, c)) == Times(Times(a, b), c)
  {
  }

  /** Off the grid an accepted order is still of whole lots, at least the minimum, and worth about what was asked for. */
  lemma AcceptedQuantities(instruments: map<string, InstrumentInfo>, symbol: string, qty: real)
    requires symbol in instruments && instruments[symbol].ctVal > 0.0 && instruments[symbol].lotSz > 0.0
    requires Sized(instruments, symbol, qty).Ok?
    ensures
      var spec, sent := SpecOf(instruments, symbol).value, Times(Sized(instruments, symbol, qty).value, instruments[symbol].ctVal);
      && (exists steps: int :: sent == WholeLots(steps, spec.qtyStep))
      && qty - spec.qtyStep < sent <= qty + Times(0.000000001, spec.qtyStep)
      && sent > 0.0 && sent >= spec.minQty
  {
    var info := instruments[symbol];
    var contracts := Sized(instruments, symbol, qty).value;
    var wanted := Over(qty, info.ctVal);
    var lots := Lots(wanted, info.lotSz);
    Rounding(wanted, info.lotSz);
    TimesAssociates(lots as real, info.lotSz, info.ctVal);
    assert Times(contracts, info.ctVal) == WholeLots(lots, SpecOf(instruments, symbol).value.qtyStep);
    TimesOver(qty, info.ctVal);
    TimesSum(wanted - info.lotSz, info.lotSz, info.ctVal);
    TimesOrder(wanted - info.lotSz, contracts, info.ctVal);
    TimesSum(wanted, Times(EPSILON, info.lotSz), info.ctVal);
    TimesAssociates(EPSILON, info.lotSz, info.ctVal);
    TimesOrder(wanted + Times(EPSILON, info.lotSz), contracts, info.ctVal);
    TimesOrder(contracts, info.minSz, info.ctVal);
    TimesOrder(0.0, contracts, info.ctVal);
  }

  /** The whole number of lots that lies within a billionth lot above the wanted size, and less than a lot below it. */
  predicate Fits(lots: int, contracts: real, lotSz: real) {
    Times(lots as real - 0.000000001, lotSz) <= contracts < Times(lots as real + 1.0 - 0.000000001, lotSz)
  }

  /**
   An order for an unknown instrument can never go out. Of a known one the fitting number of lots is sent,
   or the wanted size as it is when the venue states no lot; a size that is not positive or is below the
   venue's minimum is refused as too small.
   */
  lemma SizedExactly(instruments: map<string, InstrumentInfo>, symbol: string, qty: real, lots: int)
    requires symbol in instruments ==> instruments[symbol].ctVal > 0.0
    ensures symbol !in instruments ==> Sized(instruments, symbol, qty) == Err(Permanent)
    ensures symbol in instruments ==>
      var info, sized := instruments[symbol], Sized(instruments, symbol, qty);
      var wanted := qty / info.ctVal;
      && (info.lotSz <= 0.0 ==> sized == if wanted > 0.0 && wanted >= info.minSz then Ok(wanted) else Err(MinNotional))
      && (info.lotSz > 0.0 && Fits(lots, wanted, info.lotSz) ==>
            sized == if Times(lots as real, info.lotSz) > 0.0 && Times(lots as real, info.lotSz) >= info.minSz then Ok(Times(lots as real, info.lotSz))
                     else Err(MinNotional))
  {
    if symbol in instruments && instruments[symbol].lotSz > 0.0 {
      LotsUnique(Over(qty, instruments[symbol].ctVal), instruments[symbol].lotSz, lots);
    }
  }

  /** The venue's form of an id: every dash is a Z. */
  predicate SentAs(id: string, venueId: string) {
    |venueId| == |id| && forall i :: 0 <= i < |id| ==> venueId[i] == if id[i] == '-' then 'Z' else id[i]
  }

  /** A limit order is sent exactly when it can be sized: on the caller's side, post-only, at the caller's price and with the caller's flag. */
  lemma LimitAsAsked(
      instruments: map<string, InstrumentInfo>, clientOrderId: string, symbol: string, side: Side, qty: real, price: real, reduceOnly: bool)
    requires symbol in instruments ==> instruments[symbol].ctVal > 0.0
    ensures
      var result, sized := PostOnlyLimit(instruments, clientOrderId, symbol, side, qty, price, reduceOnly), Sized(instruments, symbol, qty);
      if sized.Err? then result == Err(sized.error)
      else
        && result.Ok? && result.value.instId == instruments[symbol].instId && SentAs(clientOrderId, result.value.clOrdId)
        && result.value.side == side && result.value.ordType == PostOnly && result.value.sz == sized.value
        && result.value.px == Some(price) && result.value.reduceOnly == reduceOnly
  {
  }

  /** A market order likewise, without a price and always reduce-only. */
  lemma MarketAsAsked(instruments: map<string, InstrumentInfo>, clientOrderId: string, symbol: string, side: Side, qty: real)
    requires symbol in instruments ==> instruments[symbol].ctVal > 0.0
    ensures
      var result, sized := ReduceOnlyMarket(instruments, clientOrderId, symbol, side, qty), Sized(instruments, symbol, qty);
      if sized.Err? then result == Err(sized.error)
      else
        && result.Ok? && result.value.instId == instruments[symbol].instId && SentAs(clientOrderId, result.value.clOrdId)
        && result.value.side == side && result.value.ordType == Market && result.value.sz == sized.value
        && result.value.px == None && result.value.reduceOnly
  {
  }

  /** What the caller is told: an unknown instrument is refused; a known upper limit is converted, an unknown one is 0, and value is never limited. */
  lemma SpecExactly(instruments: map<string, InstrumentInfo>, symbol: string)
    ensures symbol !in instruments ==> SpecOf(instruments, symbol) == Err(Permanent)
    ensures symbol in instruments ==>
      var info, spec := instruments[symbol], SpecOf(instruments, symbol);
      && spec.Ok? && spec.value.symbol == symbol && spec.value.tickSize == info.tickSize && spec.value.minNotional == 0.0
      && spec.value.qtyStep == Times(info.lotSz, info.ctVal) && spec.value.minQty == Times(info.minSz, info.ctVal)
      && spec.value.maxQty == if info.maxLmtSz > 0.0 then Times(info.maxLmtSz, info.ctVal) else 0.0
  {
  }
}
