/** A run of rows turned into fills and updates, each fill handed out once per key. Independent of what a row is. */
module Crediting {
  import opened FirstByKey

  datatype Emission<F, U> = OfFill(fill: F) | OfUpdate(update: U)

  /** Which rows carry a fill and under which key, which are passed on, and what is handed out for them. */
  datatype Rules<!D, !K, !F, !U> = Rules(eligible: D -> bool, key: D -> K, fill: D -> F, updating: D -> bool, update: D -> U)

  /** The elements with property `want`, in order. */
  function Select<D>(ds: seq<D>, want: D -> bool): seq<D> {
    if ds == [] then []
    else Select(ds[..|ds| - 1], want) + if want(ds[|ds| - 1]) then [ds[|ds| - 1]] else []
  }

  lemma {:induction false} Selected<D>(ds: seq<D>, want: D -> bool, d: D)
    ensures d in Select(ds, want) <==> d in ds && want(d)
  {
    if ds != [] {
      var n := |ds| - 1;
      assert ds == ds[..n] + [ds[n]];
      Selected(ds[..n], want, d);
    }
  }

  lemma SelectSnoc<D>(ds: seq<D>, d: D, want: D -> bool)
    ensures Select(ds + [d], want) == if want(d) then Select(ds, want) + [d] else Select(ds, want)
  {
    assert (ds + [d])[..|ds|] == ds;
  }

  lemma {:induction false} SelectAppend<D>(a: seq<D>, b: seq<D>, want: D -> bool)
    ensures Select(a + b, want) == Select(a, want) + Select(b, want)
  {
    if b == [] {
      assert a + b == a;
    } else {
      SelectAppend(a, b[..|b| - 1], want);
      assert (a + b)[..|a + b| - 1] == a + b[..|b| - 1];
    }
  }

  /** What one row hands out, fill first, when the keys of the earlier eligible rows are known. */
  function Response<D, K(==), F, U>(rules: Rules<D, K, F, U>, seen: set<K>, d: D): seq<Emission<F, U>> {
    (if rules.eligible(d) && rules.key(d) !in seen then [OfFill(rules.fill(d))] else []) +
    (if rules.updating(d) then [OfUpdate(rules.update(d))] else [])
  }

  function Seen<D, K(==), F, U>(rules: Rules<D, K, F, U>, ds: seq<D>): set<K> {
    Keys(Select(ds, rules.eligible), rules.key)
  }

  /** Everything handed out over a run of rows. */
  function Output<D, K(==), F, U>(rules: Rules<D, K, F, U>, ds: seq<D>): seq<Emission<F, U>> {
    if ds == [] then []
    else Output(rules, ds[..|ds| - 1]) + Response(rules, Seen(rules, ds[..|ds| - 1]), ds[|ds| - 1])
  }

  lemma OutputSnoc<D, K, F, U>(rules: Rules<D, K, F, U>, ds: seq<D>, d: D)
    ensures Output(rules, ds + [d]) == Output(rules, ds) + Response(rules, Seen(rules, ds), d)
    ensures Seen(rules, ds + [d]) == Seen(rules, ds) + if rules.eligible(d) then {rules.key(d)} else {}
  {
    assert (ds + [d])[..|ds|] == ds;
    SelectSnoc(ds, d, rules.eligible);
    KeysSnoc(Select(ds, rules.eligible), d, rules.key);
  }

  function Fills<F, U>(out: seq<Emission<F, U>>): seq<F> {
    if out == [] then []
    else Fills(out[..|out| - 1]) + match out[|out| - 1] { case OfFill(f) => [f] case OfUpdate(_) => [] }
  }

  function Updates<F, U>(out: seq<Emission<F, U>>): seq<U> {
    if out == [] then []
    else Updates(out[..|out| - 1]) + match out[|out| - 1] { case OfFill(_) => [] case OfUpdate(u) => [u] }
  }

  lemma {:induction false} FillsAppend<F, U>(a: seq<Emission<F, U>>, b: seq<Emission<F, U>>)
    ensures Fills(a + b) == Fills(a) + Fills(b)
  {
    if b == [] {
      assert a + b == a;
    } else {
      FillsAppend(a, b[..|b| - 1]);
      assert (a + b)[..|a + b| - 1] == a + b[..|b| - 1];
    }
  }

  lemma {:induction false} UpdatesAppend<F, U>(a: seq<Emission<F, U>>, b: seq<Emission<F, U>>)
    ensures Updates(a + b) == Updates(a) + Updates(b)
  {
    if b == [] {
      assert a + b == a;
    } else {
      UpdatesAppend(a, b[..|b| - 1]);
      assert (a + b)[..|a + b| - 1] == a + b[..|b| - 1];
    }
  }

  lemma PartsOfResponse<D, K, F, U>(rules: Rules<D, K, F, U>, seen: set<K>, d: D)
    ensures Fills(Response(rules, seen, d)) == if rules.eligible(d) && rules.key(d) !in seen then [rules.fill(d)] else []
    ensures Updates(Response(rules, seen, d)) == if rules.updating(d) then [rules.update(d)] else []
  {
    var fill: seq<Emission<F, U>> := if rules.eligible(d) && rules.key(d) !in seen then [OfFill(rules.fill(d))] else [];
    var update: seq<Emission<F, U>> := if rules.updating(d) then [OfUpdate(rules.update(d))] else [];
    FillsAppend(fill, update);
    UpdatesAppend(fill, update);
    assert Fills(fill) == (if fill == [] then [] else [rules.fill(d)]) && Updates(fill) == [];
    assert Updates(update) == (if update == [] then [] else [rules.update(d)]) && Fills(update) == [];
  }

  lemma PartsSnoc<D, K, F, U>(rules: Rules<D, K, F, U>, ds: seq<D>, d: D)
    ensures Fills(Output(rules, ds + [d])) ==
            Fills(Output(rules, ds)) + if rules.eligible(d) && rules.key(d) !in Seen(rules, ds) then [rules.fill(d)] else []
    ensures Updates(Output(rules, ds + [d])) == Updates(Output(rules, ds)) + if rules.updating(d) then [rules.update(d)] else []
  {
    var response := Response(rules, Seen(rules, ds), d);
    OutputSnoc(rules, ds, d);
    FillsAppend(Output(rules, ds), response);
    UpdatesAppend(Output(rules, ds), response);
    PartsOfResponse(rules, Seen(rules, ds), d);
  }

  /** Exactly the first eligible row of each key is credited, in order. */
  lemma {:induction false} CreditedOnce<D, K, F, U>(rules: Rules<D, K, F, U>, ds: seq<D>)
    ensures Fills(Output(rules, ds)) == Each(Firsts(Select(ds, rules.eligible), rules.key), rules.fill)
  {
    if ds != [] {
      var before, d := ds[..|ds| - 1], ds[|ds| - 1];
      assert ds == before + [d];
      CreditedOnce(rules, before);
      PartsSnoc(rules, before, d);
      SelectSnoc(before, d, rules.eligible);
      KeysSnoc(Select(before, rules.eligible), d, rules.key);
      assert Seen(rules, before) == Keys(Select(before, rules.eligible), rules.key);
    }
  }

  /** Every updating row is passed on, in order. */
  lemma {:induction false} AllPassedOn<D, K, F, U>(rules: Rules<D, K, F, U>, ds: seq<D>)
    ensures Updates(Output(rules, ds)) == Each(Select(ds, rules.updating), rules.update)
  {
    if ds != [] {
      var before, d := ds[..|ds| - 1], ds[|ds| - 1];
      assert ds == before + [d];
      AllPassedOn(rules, before);
      PartsSnoc(rules, before, d);
      SelectSnoc(before, d, rules.updating);
    }
  }

  /** Rows delivered again hand out no further fill. */
  lemma ReplayCreditsNothing<D, K, F, U>(rules: Rules<D, K, F, U>, ds: seq<D>, again: seq<D>)
    requires forall d :: d in again ==> d in ds
    ensures Fills(Output(rules, ds + again)) == Fills(Output(rules, ds))
  {
    var earlier, later := Select(ds, rules.eligible), Select(again, rules.eligible);
    SelectAppend(ds, again, rules.eligible);
    forall i | 0 <= i < |later| ensures rules.key(later[i]) in Keys(earlier, rules.key) {
      Selected(again, rules.eligible, later[i]);
      Selected(ds, rules.eligible, later[i]);
      var j :| 0 <= j < |earlier| && earlier[j] == later[i];
      assert rules.key(earlier[j]) == rules.key(later[i]);
    }
    ReplayChangesNothing(earlier, later, rules.key);
    CreditedOnce(rules, ds);
    CreditedOnce(rules, ds + again);
  }

  /** Crediting per coarse key equals crediting per fine key exactly when no two eligible rows share the coarse key only. */
  lemma CreditedPerFineKey<D, K, L>(ds: seq<D>, eligible: D -> bool, coarse: D -> K, fine: D -> L, forget: L -> K)
    requires forall d :: d in ds && eligible(d) ==> coarse(d) == forget(fine(d))
    ensures Firsts(Select(ds, eligible), coarse) == Firsts(Select(ds, eligible), fine) <==>
            forall a, b :: a in ds && b in ds && eligible(a) && eligible(b) && coarse(a) == coarse(b) ==> fine(a) == fine(b)
  {
    var xs := Select(ds, eligible);
    forall d | d in xs ensures coarse(d) == forget(fine(d)) {
      Selected(ds, eligible, d);
    }
    CoarseKeyAgrees(xs, coarse, fine, forget);
    if forall i, j :: 0 <= i < |xs| && 0 <= j < |xs| && coarse(xs[i]) == coarse(xs[j]) ==> fine(xs[i]) == fine(xs[j]) {
      forall a, b | a in ds && b in ds && eligible(a) && eligible(b) && coarse(a) == coarse(b) ensures fine(a) == fine(b) {
        Selected(ds, eligible, a);
        Selected(ds, eligible, b);
        var i :| 0 <= i < |xs| && xs[i] == a;
        var j :| 0 <= j < |xs| && xs[j] == b;
        assert fine(xs[i]) == fine(xs[j]);
      }
    } else {
      var i, j :| 0 <= i < |xs| && 0 <= j < |xs| && coarse(xs[i]) == coarse(xs[j]) && fine(xs[i]) != fine(xs[j]);
      Selected(ds, eligible, xs[i]);
      Selected(ds, eligible, xs[j]);
    }
  }
}
