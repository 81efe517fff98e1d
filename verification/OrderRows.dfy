/** What the order handler hands out, told from the rows and their surroundings alone. */
module OrderRows {
  import opened Wrappers
  import opened FirstByKey
  import opened Crediting
  import opened OrderEvents

  /** The row is of an instrument that is listed here, under a symbol that is not empty. */
  predicate Known(d: Delivery) {
    d.row.instId in d.around.instIdToSymbol && d.around.instIdToSymbol[d.row.instId] != ""
  }

  predicate Concerns(d: Delivery) { Known(d) && d.around.orderCallback }

  /** The row carries a fill that somebody here listens for. */
  predicate Carries(d: Delivery) {
    Known(d) && d.row.fillSz > 0.0 && d.row.tradeId != "" && d.around.fillCallback
  }

  /** The caller's form of a venue id: every Z is a dash. */
  predicate Translated(venueId: string, id: string) {
    |id| == |venueId| && forall i :: 0 <= i < |id| ==> id[i] == if venueId[i] == 'Z' then '-' else venueId[i]
  }

  function Worth(d: Delivery): real
    requires Known(d)
  {
    var symbol := d.around.instIdToSymbol[d.row.instId];
    if symbol in d.around.ctVals then d.around.ctVals[symbol] else 1.0
  }

  /** The update says what the row says. */
  predicate Tells(u: OrderUpdate, d: Delivery)
    requires Known(d)
  {
    var row := d.row;
    && Translated(row.clOrdId, u.clientOrderId)
    && u.symbol == d.around.instIdToSymbol[row.instId]
    && u.price == row.px && u.cumFilledQty == ToBaseUnits(row.accFillSz, Worth(d))
    && (if row.code !in {"", "0"} then
          u.state == Rejected && u.reason == "code " + row.code + ": " + row.msg
        else if row.state == "filled" then u.state == Filled && u.reason == ""
        else if row.state == "partially_filled" then u.state == PartiallyFilled && u.reason == ""
        else if row.state in {"canceled", "mmp_canceled"} then
          u.state == Cancelled && u.reason == if row.cancelSource == "" then "" else "cancelSource " + row.cancelSource
        else u.state == Accepted && u.reason == "")
  }

  /** The fill says what the row says. */
  predicate TellsFill(f: Fill, d: Delivery)
    requires Known(d)
  {
    && Translated(d.row.clOrdId, f.clientOrderId)
    && f.symbol == d.around.instIdToSymbol[d.row.instId] && f.fillId == d.row.tradeId
    && f.qty == ToBaseUnits(d.row.fillSz, Worth(d)) && f.price == d.row.fillPx && (f.isMaker <==> d.row.execType == "M")
  }

  lemma BaseUnitsExactly(contracts: real, ctVal: real)
    ensures ToBaseUnits(contracts, ctVal) == contracts * ctVal
  {
  }

  lemma UpdatingExactly(d: Delivery)
    ensures Updating(d) <==> Concerns(d)
    ensures Concerns(d) ==> Tells(UpdateOf(d), d)
  {
  }

  lemma EligibleExactly(d: Delivery)
    ensures Eligible(d) <==> Carries(d)
    ensures Carries(d) ==> TellsFill(FillOf(d), d)
  {
  }

  lemma {:induction false} SameSelection<D>(ds: seq<D>, p: D -> bool, q: D -> bool)
    requires forall i :: 0 <= i < |ds| ==> (p(ds[i]) <==> q(ds[i]))
    ensures Select(ds, p) == Select(ds, q)
  {
    if ds != [] {
      SameSelection(ds[..|ds| - 1], p, q);
    }
  }

  lemma {:induction false} SelectionHolds<D>(ds: seq<D>, p: D -> bool)
    ensures forall i :: 0 <= i < |Select(ds, p)| ==> p(Select(ds, p)[i])
  {
    if ds != [] {
      SelectionHolds(ds[..|ds| - 1], p);
    }
  }

  /**
   Whatever the run, the updates handed out are one for each row of a listed instrument while the order
   callback is set, in the order of the rows and whatever their state, each saying what its row says.
   */
  lemma UpdatesExactly(ds: seq<Delivery>)
    ensures var rows, updates := Select(ds, Concerns), Updates(Output(RULES, ds));
      |updates| == |rows| && forall i :: 0 <= i < |rows| ==> Concerns(rows[i]) && Tells(updates[i], rows[i])
  {
    forall i | 0 <= i < |ds| ensures Updating(ds[i]) <==> Concerns(ds[i]) {
      UpdatingExactly(ds[i]);
    }
    SameSelection(ds, Updating, Concerns);
    SelectionHolds(ds, Concerns);
    AllPassedOn(RULES, ds);
    var rows := Select(ds, Concerns);
    forall i | 0 <= i < |rows| ensures Concerns(rows[i]) && Tells(UpdateOf(rows[i]), rows[i]) {
      UpdatingExactly(rows[i]);
    }
  }

  /** And the fills are one for the first row of each trade id that carries one, in order, each saying what its row says. */
  lemma FillsExactly(ds: seq<Delivery>)
    ensures var rows, fills := Firsts(Select(ds, Carries), TradeId), Fills(Output(RULES, ds));
      |fills| == |rows| && forall i :: 0 <= i < |rows| ==> Carries(rows[i]) && TellsFill(fills[i], rows[i])
  {
    forall i | 0 <= i < |ds| ensures Eligible(ds[i]) <==> Carries(ds[i]) {
      EligibleExactly(ds[i]);
    }
    SameSelection(ds, Eligible, Carries);
    SelectionHolds(ds, Carries);
    CreditedOnce(RULES, ds);
    var rows := Firsts(Select(ds, Carries), TradeId);
    forall i | 0 <= i < |rows| ensures Carries(rows[i]) && TellsFill(FillOf(rows[i]), rows[i]) {
      FirstsAreFirst(Select(ds, Carries), TradeId, i);
      EligibleExactly(rows[i]);
    }
  }

  /** The trade id was carried by an earlier row. */
  ghost predicate CarriedBefore(ds: seq<Delivery>, tradeId: string) {
    exists e :: e in ds && Carries(e) && e.row.tradeId == tradeId
  }

  lemma SeenExactly(ds: seq<Delivery>, tradeId: string)
    ensures tradeId in Seen(RULES, ds) <==> CarriedBefore(ds, tradeId)
  {
    var chosen := Select(ds, Eligible);
    if tradeId in Seen(RULES, ds) {
      var i :| 0 <= i < |chosen| && TradeId(chosen[i]) == tradeId;
      Selected(ds, Eligible, chosen[i]);
      EligibleExactly(chosen[i]);
    }
    if CarriedBefore(ds, tradeId) {
      var e :| e in ds && Carries(e) && e.row.tradeId == tradeId;
      EligibleExactly(e);
      Selected(ds, Eligible, e);
      var i :| 0 <= i < |chosen| && chosen[i] == e;
      assert TradeId(chosen[i]) == tradeId;
    }
  }

  /**
   One more row hands out a fill exactly if it carries one whose trade id no earlier row carried, then an
   update exactly if it concerns us, and nothing else; a row that is not listed hands out nothing.
   */
  lemma RowHandsOut(ds: seq<Delivery>, d: Delivery)
    ensures
      var before, after := Output(RULES, ds), Output(RULES, ds + [d]);
      var fill, update := Carries(d) && !CarriedBefore(ds, d.row.tradeId), Concerns(d);
      && before <= after && |after| == |before| + (if fill then 1 else 0) + (if update then 1 else 0)
      && (fill ==> after[|before|].OfFill? && TellsFill(after[|before|].fill, d))
      && (update ==> after[|after| - 1].OfUpdate? && Tells(after[|after| - 1].update, d))
  {
    OutputSnoc(RULES, ds, d);
    SeenExactly(ds, d.row.tradeId);
    UpdatingExactly(d);
    EligibleExactly(d);
  }
}
