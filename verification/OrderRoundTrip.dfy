/** From a submit to the fill that comes back for it: ids, symbol and quantity survive the way through the venue. */
module OrderRoundTrip {
  import opened Wrappers
  import opened InstrumentIndex
  import OrderIds
  import OrderSizing
  import OrderEvents

  /** The gateway's surroundings when both callbacks are set. */
  function Listening(instruments: map<string, InstrumentInfo>, symbols: map<string, string>): OrderEvents.Surroundings {
    OrderEvents.Surroundings(symbols, map s | s in instruments :: instruments[s].ctVal, true, true)
  }

  /** The venue reports a full fill of the order. */
  predicate Fills(row: OrderEvents.OrderRow, order: OrderSizing.Order) {
    row.instId == order.instId && row.clOrdId == order.clOrdId && row.fillSz == order.sz && row.tradeId != ""
  }

  /**
   With the two maps inverse to each other a full fill is recognised as ours, unless the symbol is the
   empty string that the handler takes for a foreign row, and it carries the caller's id back if and only
   if that id has no 'Z'.
   */
  lemma FillComesBack(
      instruments: map<string, InstrumentInfo>, symbols: map<string, string>, clientOrderId: string, symbol: string,
      side: OrderSizing.Side, qty: real, price: real, reduceOnly: bool, order: OrderSizing.Order, row: OrderEvents.OrderRow)
    requires Inverse(instruments, symbols) && symbol in instruments && instruments[symbol].ctVal > 0.0
    requires Ok(order) in [OrderSizing.PostOnlyLimit(instruments, clientOrderId, symbol, side, qty, price, reduceOnly),
                           OrderSizing.ReduceOnlyMarket(instruments, clientOrderId, symbol, side, qty)]
    requires Fills(row, order)
    ensures
      var d := OrderEvents.Delivery(row, Listening(instruments, symbols));
      && (OrderEvents.Eligible(d) <==> symbol != "")
      && (symbol != "" ==>
            && OrderEvents.FillOf(d).symbol == symbol
            && (OrderEvents.FillOf(d).clientOrderId == clientOrderId <==> 'Z' !in clientOrderId)
            && OrderEvents.FillOf(d).fillId == row.tradeId && OrderEvents.FillOf(d).price == row.fillPx
            && OrderEvents.FillOf(d).qty == OrderSizing.Times(row.fillSz, instruments[symbol].ctVal))
  {
    OrderIds.RoundTrip(clientOrderId);
  }

  /** On the reported grid the quantity credited is the quantity asked for, for both kinds of order. */
  lemma GridFillIsExact(
      instruments: map<string, InstrumentInfo>, symbols: map<string, string>, clientOrderId: string, symbol: string,
      side: OrderSizing.Side, steps: int, price: real, reduceOnly: bool, row: OrderEvents.OrderRow)
    requires Inverse(instruments, symbols) && symbol in instruments && symbol != ""
    requires instruments[symbol].ctVal > 0.0 && instruments[symbol].lotSz > 0.0
    ensures
      var qty := OrderSizing.WholeLots(steps, OrderSizing.SpecOf(instruments, symbol).value.qtyStep);
      var limit := OrderSizing.PostOnlyLimit(instruments, clientOrderId, symbol, side, qty, price, reduceOnly);
      var market := OrderSizing.ReduceOnlyMarket(instruments, clientOrderId, symbol, side, qty);
      var d := OrderEvents.Delivery(row, Listening(instruments, symbols));
      && (limit.Ok? <==> market.Ok?)
      && (limit.Ok? && Fills(row, limit.value) ==> OrderEvents.FillOf(d).qty == qty)
      && (market.Ok? && Fills(row, market.value) ==> OrderEvents.FillOf(d).qty == qty)
  {
    OrderSizing.GridQuantities(instruments, symbol, steps);
  }

  /** How a full fill of an order moves the position, in base units. */
  function Moved(order: OrderSizing.Order, ctVal: real): real {
    if order.side == OrderSizing.Buy then OrderSizing.Times(order.sz, ctVal) else -OrderSizing.Times(order.sz, ctVal)
  }

  /**
   A full fill moves the caller's position in the direction asked for: by the quantity asked for on the
   reported grid, and otherwise by at most a step less and a billionth step more. A limit order rests as
   post-only at the caller's price; a market order can only reduce the position.
   */
  lemma FillMovesPosition(
      instruments: map<string, InstrumentInfo>, clientOrderId: string, symbol: string, side: OrderSizing.Side, qty: real, price: real, reduceOnly: bool)
    requires symbol in instruments && instruments[symbol].ctVal > 0.0 && instruments[symbol].lotSz > 0.0
    ensures
      var limit := OrderSizing.PostOnlyLimit(instruments, clientOrderId, symbol, side, qty, price, reduceOnly);
      var market := OrderSizing.ReduceOnlyMarket(instruments, clientOrderId, symbol, side, qty);
      var ctVal, step := instruments[symbol].ctVal, OrderSizing.Times(instruments[symbol].lotSz, instruments[symbol].ctVal);
      && (limit.Ok? <==> market.Ok?)
      && (limit.Ok? ==>
            && limit.value.ordType == OrderSizing.PostOnly && limit.value.px == Some(price) && limit.value.reduceOnly == reduceOnly
            && market.value.ordType == OrderSizing.Market && market.value.px == None && market.value.reduceOnly
            && Moved(limit.value, ctVal) == Moved(market.value, ctVal)
            && (side == OrderSizing.Buy ==>
                  Moved(limit.value, ctVal) > 0.0 && qty - step < Moved(limit.value, ctVal) <= qty + OrderSizing.Times(0.000000001, step))
            && (side == OrderSizing.Sell ==>
                  Moved(limit.value, ctVal) < 0.0 && qty - step < -Moved(limit.value, ctVal) <= qty + OrderSizing.Times(0.000000001, step)))
  {
    OrderSizing.LimitAsAsked(instruments, clientOrderId, symbol, side, qty, price, reduceOnly);
    OrderSizing.MarketAsAsked(instruments, clientOrderId, symbol, side, qty);
    if OrderSizing.Sized(instruments, symbol, qty).Ok? {
      OrderSizing.AcceptedQuantities(instruments, symbol, qty);
    }
  }

  lemma GridFillMovesExactly(
      instruments: map<string, InstrumentInfo>, clientOrderId: string, symbol: string, side: OrderSizing.Side, steps: int, price: real, reduceOnly: bool)
    requires symbol in instruments && instruments[symbol].ctVal > 0.0 && instruments[symbol].lotSz > 0.0
    ensures
      var ctVal, qty := instruments[symbol].ctVal, OrderSizing.WholeLots(steps, OrderSizing.Times(instruments[symbol].lotSz, instruments[symbol].ctVal));
      var limit := OrderSizing.PostOnlyLimit(instruments, clientOrderId, symbol, side, qty, price, reduceOnly);
      var market := OrderSizing.ReduceOnlyMarket(instruments, clientOrderId, symbol, side, qty);
      var asked := if side == OrderSizing.Buy then qty else -qty;
      (limit.Ok? ==> Moved(limit.value, ctVal) == asked) && (market.Ok? ==> Moved(market.value, ctVal) == asked)
  {
    OrderSizing.GridQuantities(instruments, symbol, steps);
  }
}
