/** The gateway's handler of private order rows: fills credited once, updates passed on. Quantities are exact reals. */
module OrderEvents {
  import opened Wrappers
  import opened Text
  import OrderIds
  import opened Crediting
  import opened FirstByKey

  datatype OrderState = Accepted | PartiallyFilled | Filled | Cancelled | Rejected

  /** A row of the orders channel; a missing text field reads as empty, a missing or unreadable number as zero. */
  datatype OrderRow = OrderRow(
    instId: string, clOrdId: string, state: string, code: string, msg: string, cancelSource: string,
    px: real, accFillSz: real, fillSz: real, fillPx: real, tradeId: string, execType: string)

  /** What the handler finds when it looks at a row: the instrument index and which callbacks are set. */
  datatype Surroundings = Surroundings(instIdToSymbol: map<string, string>, ctVals: map<string, real>, fillCallback: bool, orderCallback: bool)

  datatype Delivery = Delivery(row: OrderRow, around: Surroundings)

  datatype Fill = Fill(clientOrderId: string, symbol: string, fillId: string, qty: real, price: real, isMaker: bool)

  datatype OrderUpdate = OrderUpdate(clientOrderId: string, symbol: string, price: real, cumFilledQty: real, state: OrderState, reason: string)

  function Symbol(d: Delivery): string {
    if d.row.instId in d.around.instIdToSymbol then d.around.instIdToSymbol[d.row.instId] else ""
  }

  /** A row of another strategy on the same account has no symbol here. */
  predicate Ours(d: Delivery) { Symbol(d) != "" }

  function ContractValue(d: Delivery): real {
    if Symbol(d) in d.around.ctVals then d.around.ctVals[Symbol(d)] else 1.0
  }

  function ToBaseUnits(contracts: real, ctVal: real): real { contracts * ctVal }

  function ClientOrderId(d: Delivery): string { OrderIds.FromVenue(d.row.clOrdId) }

  predicate Eligible(d: Delivery) {
    Ours(d) && d.row.fillSz > 0.0 && d.row.tradeId != "" && d.around.fillCallback
  }

  predicate Updating(d: Delivery) { Ours(d) && d.around.orderCallback }

  function FillOf(d: Delivery): Fill {
    Fill(ClientOrderId(d), Symbol(d), d.row.tradeId, ToBaseUnits(d.row.fillSz, ContractValue(d)), d.row.fillPx, d.row.execType == "M")
  }

  function ParseState(state: string): OrderState {
    match state
    case "filled" => Filled
    case "partially_filled" => PartiallyFilled
    case "canceled" => Cancelled
    case "mmp_canceled" => Cancelled
    case _ => Accepted
  }

  predicate VenueRejects(row: OrderRow) { row.code != "" && row.code != "0" }

  function UpdateOf(d: Delivery): OrderUpdate {
    var row, parsed := d.row, ParseState(d.row.state);
    OrderUpdate(
      ClientOrderId(d), Symbol(d), row.px, ToBaseUnits(row.accFillSz, ContractValue(d)),
      if VenueRejects(row) then Rejected else parsed,
      if VenueRejects(row) then "code " + row.code + ": " + row.msg
      else if parsed == Cancelled && row.cancelSource != "" then "cancelSource " + row.cancelSource
      else "")
  }

  /**
   A rejection code outranks whatever state the row claims, and an update explains itself exactly when it
   is a rejection or a cancellation with a source.
   */
  lemma RejectionsExplained(d: Delivery)
    ensures UpdateOf(d).state == Rejected <==> VenueRejects(d.row)
    ensures UpdateOf(d).state == Filled <==> !VenueRejects(d.row) && d.row.state == "filled"
    ensures UpdateOf(d).state == Cancelled <==> !VenueRejects(d.row) && d.row.state in {"canceled", "mmp_canceled"}
    ensures UpdateOf(d).reason != "" <==> VenueRejects(d.row) || (UpdateOf(d).state == Cancelled && d.row.cancelSource != "")
  {
    assert |"cancelSource " + d.row.cancelSource| > 0 && |"code " + d.row.code + ": " + d.row.msg| > 0;
  }

  function TradeId(d: Delivery): string { d.row.tradeId }

  const RULES := Rules(Eligible, TradeId, FillOf, Updating, UpdateOf)

  /** The identity of a trade at the venue, whose trade ids are counted per instrument. */
  function Trade(d: Delivery): (string, string) { (d.row.instId, d.row.tradeId) }

  /**
   The set of seen fills is keyed by trade id alone. It credits every trade exactly once if and only if
   no two instruments of ours ever deliver the same trade id.
   */
  lemma CreditedPerTrade(ds: seq<Delivery>)
    ensures Firsts(Select(ds, Eligible), TradeId) == Firsts(Select(ds, Eligible), Trade) <==>
            forall a, b :: a in ds && b in ds && Eligible(a) && Eligible(b) && TradeId(a) == TradeId(b) ==> Trade(a) == Trade(b)
  {
    CreditedPerFineKey(ds, Eligible, TradeId, Trade, (t: (string, string)) => t.1);
  }

  function Deliveries(rows: seq<OrderRow>, around: Surroundings): (ds: seq<Delivery>)
    ensures |ds| == |rows|
  {
    seq(|rows|, i requires 0 <= i < |rows| => Delivery(rows[i], around))
  }

  class OrderEventHandler {
    var seenFills: set<string>
    /** The callbacks made so far. */
    var emitted: seq<Emission<Fill, OrderUpdate>>
    ghost var handled: seq<Delivery>

    ghost predicate Valid()
      reads this
    {
      seenFills == Seen(RULES, handled) && emitted == Output(RULES, handled)
    }

    constructor ()
      ensures Valid() && handled == []
    {
      seenFills, emitted, handled := {}, [], [];
    }

    /** None stands for event data that is not an array. */
    method HandleOrderEvent(data: Option<seq<OrderRow>>, around: Surroundings)
      requires Valid()
      modifies this
      ensures Valid()
      ensures handled == old(handled) + if data.None? then [] else Deliveries(data.value, around)
    {
      if data.None? {
        return;
      }
      ghost var arriving := Deliveries(data.value, around);
      for i := 0 to |data.value|
        invariant Valid() && handled == old(handled) + arriving[..i]
      {
        HandleRow(data.value[i], around);
        Associates(old(handled), arriving[..i], [arriving[i]]);
        TakesOneMore(arriving, i);
      }
      assert arriving[..|data.value|] == arriving;
    }

    method HandleRow(row: OrderRow, around: Surroundings)
      requires Valid()
      modifies this
      ensures Valid() && handled == old(handled) + [Delivery(row, around)]
    {
      ghost var d := Delivery(row, around);
      OutputSnoc(RULES, handled, d);
      handled := handled + [d];
      var symbol := "";
      if row.instId in around.instIdToSymbol {
        symbol := around.instIdToSymbol[row.instId];
      }
      if symbol == "" {
        assert Response(RULES, seenFills, d) == [];
        return;
      }
      CreditFill(row, symbol, around);
      PassOn(row, symbol, around);
      assert emitted == old(emitted) + Response(RULES, old(seenFills), d);
    }

    /** Fill first: an update can be terminal and carry the last fill. */
    method CreditFill(row: OrderRow, symbol: string, around: Surroundings)
      requires symbol == Symbol(Delivery(row, around)) != ""
      modifies this`seenFills, this`emitted
      ensures seenFills == old(seenFills) + if Eligible(Delivery(row, around)) then {row.tradeId} else {}
      ensures emitted == old(emitted) +
              if Eligible(Delivery(row, around)) && row.tradeId !in old(seenFills) then [OfFill(FillOf(Delivery(row, around)))] else []
    {
      if row.fillSz > 0.0 && row.tradeId != "" && around.fillCallback {
        var unseen := row.tradeId !in seenFills;
        seenFills := seenFills + {row.tradeId};
        if unseen {
          var ctVal := if symbol in around.ctVals then around.ctVals[symbol] else 1.0;
          var fill := Fill(OrderIds.FromVenue(row.clOrdId), symbol, row.tradeId, ToBaseUnits(row.fillSz, ctVal), row.fillPx, row.execType == "M");
          assert fill == FillOf(Delivery(row, around));
          emitted := emitted + [OfFill(fill)];
        }
      }
    }

    method PassOn(row: OrderRow, symbol: string, around: Surroundings)
      requires symbol == Symbol(Delivery(row, around)) != ""
      modifies this`emitted
      ensures emitted == old(emitted) + if Updating(Delivery(row, around)) then [OfUpdate(UpdateOf(Delivery(row, around)))] else []
    {
      if !around.orderCallback {
        return;
      }
      var ctVal := if symbol in around.ctVals then around.ctVals[symbol] else 1.0;
      var state, reason := ParseState(row.state), "";
      if row.code != "" && row.code != "0" {
        state := Rejected;
        reason := "code " + row.code + ": " + row.msg;
      } else if state == Cancelled && row.cancelSource != "" {
        reason := "cancelSource " + row.cancelSource;
      }
      var update := OrderUpdate(OrderIds.FromVenue(row.clOrdId), symbol, row.px, ToBaseUnits(row.accFillSz, ctVal), state, reason);
      assert update == UpdateOf(Delivery(row, around));
      emitted := emitted + [OfUpdate(update)];
    }
  }
}
