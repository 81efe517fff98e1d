/** What crediting each trade id once means for the position: the fills of an order add up to what its updates report. */
module FillAccounting {
  import opened FirstByKey
  import opened Crediting
  import opened OrderEvents

  /** A trade of one order at the venue. */
  datatype Execution<K> = Execution(id: K, size: real)

  function Total<K>(trades: seq<Execution<K>>): real {
    if trades == [] then 0.0 else Total(trades[..|trades| - 1]) + trades[|trades| - 1].size
  }

  ghost predicate Executed<K(!new)>(trades: seq<Execution<K>>) {
    && (forall j :: 0 <= j < |trades| ==> trades[j].size > 0.0)
    && (forall j, k :: 0 <= j < k < |trades| ==> trades[j].id != trades[k].id)
  }

  lemma {:induction false} TotalGrows<K(!new)>(trades: seq<Execution<K>>, j: nat, k: nat)
    requires Executed(trades) && j < k <= |trades|
    ensures Total(trades[..j]) < Total(trades[..k])
    decreases k
  {
    assert trades[..k][..k - 1] == trades[..k - 1];
    if j < k - 1 {
      TotalGrows(trades, j, k - 1);
    }
  }

  /** Which rows concern the order, and the size of the fill a row carries. */
  datatype Order<!D> = Order(mine: D -> bool, size: D -> real)

  /** The furthest trade of the order that any row so far has reported; row i reports the order after its first steps[i] trades. */
  function Peak<D>(order: Order<D>, ds: seq<D>, steps: seq<nat>): nat
    requires |steps| == |ds|
  {
    if ds == [] then 0
    else
      var n := |ds| - 1;
      var before := Peak(order, ds[..n], steps[..n]);
      if order.mine(ds[n]) && steps[n] > before then steps[n] else before
  }

  /**
   One row as a venue may send it. A row of the order repeats some state it has been in, and if it carries
   a fill that is the trade which led there. A state beyond all earlier ones is the next one and carries
   its trade. Rows of other orders carry other trades.
   */
  predicate Truthful<D, K(==), F, U>(rules: Rules<D, K, F, U>, order: Order<D>, trades: seq<Execution<K>>, peak: nat, d: D, step: nat) {
    if order.mine(d) then
      && step <= |trades|
      && (rules.eligible(d) ==> step >= 1 && rules.key(d) == trades[step - 1].id && order.size(d) == trades[step - 1].size)
      && (step > peak ==> step == peak + 1 && rules.eligible(d))
    else
      rules.eligible(d) ==> forall j :: 0 <= j < |trades| ==> trades[j].id != rules.key(d)
  }

  /** Any number of replays, duplicates and foreign rows, but nothing lost. */
  predicate Gapless<D, K(==), F, U>(rules: Rules<D, K, F, U>, order: Order<D>, trades: seq<Execution<K>>, ds: seq<D>, steps: seq<nat>)
    requires |steps| == |ds|
  {
    ds == [] ||
    (var n := |ds| - 1;
     && Gapless(rules, order, trades, ds[..n], steps[..n])
     && Truthful(rules, order, trades, Peak(order, ds[..n], steps[..n]), ds[n], steps[n]))
  }

  function Credited<F>(fills: seq<F>, amount: F -> real): real {
    if fills == [] then 0.0 else Credited(fills[..|fills| - 1], amount) + amount(fills[|fills| - 1])
  }

  /** A fill of the order counts with its size, any other fill not at all. */
  predicate Valued<D, K, F, U>(rules: Rules<D, K, F, U>, order: Order<D>, amount: F -> real, d: D) {
    rules.eligible(d) ==> amount(rules.fill(d)) == if order.mine(d) then order.size(d) else 0.0
  }

  lemma CreditedSnoc<F>(fills: seq<F>, fill: F, amount: F -> real)
    ensures Credited(fills + [fill], amount) == Credited(fills, amount) + amount(fill)
  {
    assert (fills + [fill])[..|fills|] == fills;
  }

  lemma TotalSnoc<K>(trades: seq<Execution<K>>, k: nat)
    requires k < |trades|
    ensures Total(trades[..k + 1]) == Total(trades[..k]) + trades[k].size
  {
    assert trades[..k + 1][..k] == trades[..k];
  }

  lemma {:induction false} PeakInRange<D, K, F, U>(rules: Rules<D, K, F, U>, order: Order<D>, trades: seq<Execution<K>>, ds: seq<D>, steps: seq<nat>)
    requires |steps| == |ds| && Gapless(rules, order, trades, ds, steps)
    ensures Peak(order, ds, steps) <= |trades|
  {
    if ds != [] {
      PeakInRange(rules, order, trades, ds[..|ds| - 1], steps[..|ds| - 1]);
    }
  }

  /** The remembered keys of the order are those of its first trades, up to the peak. */
  lemma {:induction false} SeenUpToPeak<D, K(!new), F, U>(
      rules: Rules<D, K, F, U>, order: Order<D>, trades: seq<Execution<K>>, ds: seq<D>, steps: seq<nat>, j: nat)
    requires |steps| == |ds| && Executed(trades) && Gapless(rules, order, trades, ds, steps) && j < |trades|
    ensures trades[j].id in Seen(rules, ds) <==> j < Peak(order, ds, steps)
  {
    if ds != [] {
      var n := |ds| - 1;
      SeenUpToPeak(rules, order, trades, ds[..n], steps[..n], j);
      OutputSnoc(rules, ds[..n], ds[n]);
      assert ds == ds[..n] + [ds[n]];
    }
  }

  /** One more row moves the credit and the peak together. */
  lemma CreditStep<D, K(!new), F, U>(
      rules: Rules<D, K, F, U>, order: Order<D>, trades: seq<Execution<K>>, before: seq<D>, peak: nat, d: D, step: nat, amount: F -> real)
    requires Truthful(rules, order, trades, peak, d, step) && Valued(rules, order, amount, d)
    requires peak <= |trades| && Credited(Fills(Output(rules, before)), amount) == Total(trades[..peak])
    requires forall j :: 0 <= j < |trades| ==> (trades[j].id in Seen(rules, before) <==> j < peak)
    ensures
      var next := if order.mine(d) && step > peak then step else peak;
      next <= |trades| && Credited(Fills(Output(rules, before + [d])), amount) == Total(trades[..next])
  {
    var fills := Fills(Output(rules, before));
    PartsSnoc(rules, before, d);
    if rules.eligible(d) && rules.key(d) !in Seen(rules, before) {
      CreditedSnoc(fills, rules.fill(d), amount);
      if order.mine(d) {
        assert trades[step - 1].id == rules.key(d);
        TotalSnoc(trades, peak);
      }
    } else {
      assert Fills(Output(rules, before + [d])) == fills;
      if order.mine(d) && rules.eligible(d) {
        assert trades[step - 1].id in Seen(rules, before);
      }
    }
  }

  /** What has been credited to the order is the total of its trades up to the peak, each counted once. */
  lemma {:induction false} CreditedUpToPeak<D, K(!new), F, U>(
      rules: Rules<D, K, F, U>, order: Order<D>, trades: seq<Execution<K>>, ds: seq<D>, steps: seq<nat>, amount: F -> real)
    requires |steps| == |ds| && Executed(trades) && Gapless(rules, order, trades, ds, steps)
    requires forall d :: d in ds ==> Valued(rules, order, amount, d)
    ensures Peak(order, ds, steps) <= |trades|
    ensures Credited(Fills(Output(rules, ds)), amount) == Total(trades[..Peak(order, ds, steps)])
  {
    if ds != [] {
      var n := |ds| - 1;
      var before := ds[..n];
      assert ds == before + [ds[n]];
      CreditedUpToPeak(rules, order, trades, before, steps[..n], amount);
      forall j | 0 <= j < |trades| ensures trades[j].id in Seen(rules, before) <==> j < Peak(order, before, steps[..n]) {
        SeenUpToPeak(rules, order, trades, before, steps[..n], j);
      }
      CreditStep(rules, order, trades, before, Peak(order, before, steps[..n]), ds[n], steps[n], amount);
    }
  }

  lemma {:induction false} GaplessPrefix<D, K, F, U>(
      rules: Rules<D, K, F, U>, order: Order<D>, trades: seq<Execution<K>>, ds: seq<D>, steps: seq<nat>, i: nat)
    requires |steps| == |ds| && i <= |ds| && Gapless(rules, order, trades, ds, steps)
    ensures Gapless(rules, order, trades, ds[..i], steps[..i])
  {
    if i < |ds| {
      var n := |ds| - 1;
      GaplessPrefix(rules, order, trades, ds[..n], steps[..n], i);
      assert ds[..n][..i] == ds[..i] && steps[..n][..i] == steps[..i];
    } else {
      assert ds[..i] == ds && steps[..i] == steps;
    }
  }

  lemma {:induction false} OutputPrefix<D, K, F, U>(rules: Rules<D, K, F, U>, ds: seq<D>, i: nat)
    requires i <= |ds|
    ensures Output(rules, ds[..i]) <= Output(rules, ds)
  {
    if i < |ds| {
      OutputPrefix(rules, ds[..|ds| - 1], i);
      assert ds[..|ds| - 1][..i] == ds[..i];
    } else {
      assert ds[..i] == ds;
    }
  }

  /** At every row of the order the credit covers the state it reports, exactly when that state is the latest seen. */
  lemma CreditCoversRow<D, K(!new), F, U>(
      rules: Rules<D, K, F, U>, order: Order<D>, trades: seq<Execution<K>>, ds: seq<D>, steps: seq<nat>, amount: F -> real, i: nat)
    requires |steps| == |ds| && Executed(trades) && Gapless(rules, order, trades, ds, steps)
    requires forall d :: d in ds ==> Valued(rules, order, amount, d)
    requires i < |ds| && order.mine(ds[i]) && steps[i] <= |trades|
    ensures
      var credited, reported := Credited(Fills(Output(rules, ds[..i + 1])), amount), Total(trades[..steps[i]]);
      reported <= credited && (reported == credited <==> steps[i] == Peak(order, ds[..i + 1], steps[..i + 1]))
  {
    var upTo := ds[..i + 1];
    assert upTo[..i] == ds[..i] && upTo[i] == ds[i];
    GaplessPrefix(rules, order, trades, ds, steps, i + 1);
    CreditedUpToPeak(rules, order, trades, upTo, steps[..i + 1], amount);
    var peak := Peak(order, upTo, steps[..i + 1]);
    assert steps[i] <= peak;
    if steps[i] < peak {
      TotalGrows(trades, steps[i], peak);
    }
  }

  /** A row passed on is the last thing handed out for the rows up to it. */
  lemma UpdateLast<D, K, F, U>(rules: Rules<D, K, F, U>, ds: seq<D>, i: nat)
    requires i < |ds| && rules.updating(ds[i])
    ensures var out := Output(rules, ds[..i + 1]); out <= Output(rules, ds) && out != [] && out[|out| - 1] == OfUpdate(rules.update(ds[i]))
  {
    OutputPrefix(rules, ds, i + 1);
    OutputSnoc(rules, ds[..i], ds[i]);
    assert ds[..i + 1] == ds[..i] + [ds[i]];
  }

  lemma {:induction false} SamePeak<D>(order: Order<D>, order': Order<D>, ds: seq<D>, steps: seq<nat>)
    requires |steps| == |ds| && order.mine == order'.mine
    ensures Peak(order, ds, steps) == Peak(order', ds, steps)
  {
    if ds != [] {
      SamePeak(order, order', ds[..|ds| - 1], steps[..|ds| - 1]);
    }
  }

  /** The same feed measured in another unit. */
  lemma {:induction false} Converted<D, K, F, U>(
      rules: Rules<D, K, F, U>, order: Order<D>, trades: seq<Execution<K>>, order': Order<D>, trades': seq<Execution<K>>, ds: seq<D>, steps: seq<nat>)
    requires |steps| == |ds| && order.mine == order'.mine && Gapless(rules, order, trades, ds, steps)
    requires |trades| == |trades'| && forall j :: 0 <= j < |trades| ==> trades[j].id == trades'[j].id
    requires forall d, j :: d in ds && order.mine(d) && 0 <= j < |trades| && order.size(d) == trades[j].size ==> order'.size(d) == trades'[j].size
    ensures Gapless(rules, order', trades', ds, steps)
  {
    if ds != [] {
      var n := |ds| - 1;
      SamePeak(order, order', ds[..n], steps[..n]);
      assert forall d :: d in ds[..n] ==> d in ds;
      Converted(rules, order, trades, order', trades', ds[..n], steps[..n]);
    }
  }

  function InBaseUnits(trades: seq<Execution<string>>, ctVal: real): (converted: seq<Execution<string>>)
    ensures |converted| == |trades|
  {
    Each(trades, (t: Execution<string>) => Execution(t.id, ToBaseUnits(t.size, ctVal)))
  }

  lemma {:induction false} TotalInBaseUnits(trades: seq<Execution<string>>, ctVal: real, k: nat)
    requires k <= |trades|
    ensures Total(InBaseUnits(trades, ctVal)[..k]) == ToBaseUnits(Total(trades[..k]), ctVal)
  {
    if k > 0 {
      TotalInBaseUnits(trades, ctVal, k - 1);
      TotalSnoc(trades, k - 1);
      TotalSnoc(InBaseUnits(trades, ctVal), k - 1);
    }
  }

  /** The rows of one client order as the gateway sees them, with fills in contracts or in base units. */
  function RowsOf(clientOrderId: string, size: Delivery -> real): Order<Delivery> {
    Order((d: Delivery) => Ours(d) && ClientOrderId(d) == clientOrderId, size)
  }

  function Contracts(d: Delivery): real { d.row.fillSz }

  function BaseUnits(d: Delivery): real { FillOf(d).qty }

  function CreditTo(clientOrderId: string): Fill -> real {
    (fill: Fill) => if fill.clientOrderId == clientOrderId then fill.qty else 0.0
  }

  /** The venue's accumulated size is the running sum of the trades, and a contract keeps its value. */
  ghost predicate Accumulates(clientOrderId: string, trades: seq<Execution<string>>, ds: seq<Delivery>, steps: seq<nat>, ctVal: real)
    requires |steps| == |ds|
  {
    forall i :: 0 <= i < |ds| && RowsOf(clientOrderId, Contracts).mine(ds[i]) ==>
      steps[i] <= |trades| && ds[i].row.accFillSz == Total(trades[..steps[i]]) && ContractValue(ds[i]) == ctVal
  }

  lemma ProductPositive(a: real, b: real)
    requires a > 0.0 && b > 0.0
    ensures a * b > 0.0
  {
  }

  lemma QuantitiesConvert(d: Delivery, ctVal: real)
    requires ContractValue(d) == ctVal
    ensures BaseUnits(d) == ToBaseUnits(d.row.fillSz, ctVal) && UpdateOf(d).cumFilledQty == ToBaseUnits(d.row.accFillSz, ctVal)
  {
  }

  lemma FillValued(clientOrderId: string, d: Delivery)
    ensures Valued(RULES, RowsOf(clientOrderId, BaseUnits), CreditTo(clientOrderId), d)
  {
  }

  lemma FeedInBaseUnits(clientOrderId: string, trades: seq<Execution<string>>, ds: seq<Delivery>, steps: seq<nat>, ctVal: real)
    requires |steps| == |ds| && Executed(trades) && ctVal > 0.0
    requires Gapless(RULES, RowsOf(clientOrderId, Contracts), trades, ds, steps) && Accumulates(clientOrderId, trades, ds, steps, ctVal)
    ensures Executed(InBaseUnits(trades, ctVal))
    ensures Gapless(RULES, RowsOf(clientOrderId, BaseUnits), InBaseUnits(trades, ctVal), ds, steps)
  {
    var converted := InBaseUnits(trades, ctVal);
    forall j | 0 <= j < |trades| ensures converted[j].size > 0.0 {
      ProductPositive(trades[j].size, ctVal);
    }
    forall d, j | d in ds && RowsOf(clientOrderId, Contracts).mine(d) && 0 <= j < |trades| && d.row.fillSz == trades[j].size
      ensures BaseUnits(d) == converted[j].size
    {
      var i :| 0 <= i < |ds| && ds[i] == d;
      assert ContractValue(ds[i]) == ctVal;
      QuantitiesConvert(d, ctVal);
    }
    Converted(RULES, RowsOf(clientOrderId, Contracts), trades, RowsOf(clientOrderId, BaseUnits), InBaseUnits(trades, ctVal), ds, steps);
  }

  /**
   When an update is handed out, the fills handed out before it cover the quantity it reports. They match
   it exactly if and only if the update is not older than one already seen.
   */
  lemma FillsCoverUpdates(clientOrderId: string, trades: seq<Execution<string>>, ds: seq<Delivery>, steps: seq<nat>, ctVal: real, i: nat)
    requires |steps| == |ds| && Executed(trades) && ctVal > 0.0
    requires Gapless(RULES, RowsOf(clientOrderId, Contracts), trades, ds, steps) && Accumulates(clientOrderId, trades, ds, steps, ctVal)
    requires i < |ds| && RowsOf(clientOrderId, Contracts).mine(ds[i]) && Updating(ds[i])
    ensures
      var out := Output(RULES, ds[..i + 1]);
      var credited := Credited(Fills(out), CreditTo(clientOrderId));
      && out <= Output(RULES, ds) && out != [] && out[|out| - 1] == OfUpdate(UpdateOf(ds[i]))
      && UpdateOf(ds[i]).cumFilledQty <= credited
      && (UpdateOf(ds[i]).cumFilledQty == credited <==> steps[i] == Peak(RowsOf(clientOrderId, Contracts), ds[..i + 1], steps[..i + 1]))
  {
    var order, trades' := RowsOf(clientOrderId, BaseUnits), InBaseUnits(trades, ctVal);
    UpdateLast(RULES, ds, i);
    FeedInBaseUnits(clientOrderId, trades, ds, steps, ctVal);
    forall d | d in ds ensures Valued(RULES, order, CreditTo(clientOrderId), d) {
      FillValued(clientOrderId, d);
    }
    CreditCoversRow(RULES, order, trades', ds, steps, CreditTo(clientOrderId), i);
    TotalInBaseUnits(trades, ctVal, steps[i]);
    QuantitiesConvert(ds[i], ctVal);
    assert UpdateOf(ds[i]).cumFilledQty == Total(trades'[..steps[i]]);
    SamePeak(RowsOf(clientOrderId, Contracts), order, ds[..i + 1], steps[..i + 1]);
  }
}
