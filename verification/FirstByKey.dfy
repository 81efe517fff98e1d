/** Keeping the first element of each key: the rule behind fill crediting and both archive parsers. */
module FirstByKey {
  import opened Text

  /** No earlier element has the key of element i. */
  predicate IsFirst<V, K(==)>(xs: seq<V>, key: V -> K, i: nat)
    requires i < |xs|
  {
    forall j :: 0 <= j < i ==> key(xs[j]) != key(xs[i])
  }

  /** The elements that are first of their key, in order. */
  function Firsts<V, K(==)>(xs: seq<V>, key: V -> K): (out: seq<V>)
    ensures |out| <= |xs|
  {
    if xs == [] then []
    else
      var n := |xs| - 1;
      Firsts(xs[..n], key) + if IsFirst(xs, key, n) then [xs[n]] else []
  }

  lemma {:induction false} FirstsCover<V, K>(xs: seq<V>, key: V -> K, i: nat)
    requires i < |xs|
    ensures exists k :: 0 <= k < |Firsts(xs, key)| && key(Firsts(xs, key)[k]) == key(xs[i])
  {
    var n := |xs| - 1;
    var before := Firsts(xs[..n], key);
    if i < n {
      FirstsCover(xs[..n], key, i);
      var k :| 0 <= k < |before| && key(before[k]) == key(xs[..n][i]);
      assert Firsts(xs, key)[k] == before[k];
    } else if IsFirst(xs, key, n) {
      assert Firsts(xs, key)[|before|] == xs[n];
    } else {
      var j :| 0 <= j < n && key(xs[j]) == key(xs[n]);
      FirstsCover(xs[..n], key, j);
      var k :| 0 <= k < |before| && key(before[k]) == key(xs[..n][j]);
      assert Firsts(xs, key)[k] == before[k];
    }
  }

  /** Where in xs the k-th kept element stands. */
  function Position<V, K(==)>(xs: seq<V>, key: V -> K, k: nat): (i: nat)
    requires k < |Firsts(xs, key)|
    ensures i < |xs|
  {
    var n := |xs| - 1;
    if k < |Firsts(xs[..n], key)| then Position(xs[..n], key, k) else n
  }

  /** Each kept element is the first of its key in xs. */
  lemma {:induction false} FirstsAreFirst<V, K>(xs: seq<V>, key: V -> K, k: nat)
    requires k < |Firsts(xs, key)|
    ensures Firsts(xs, key)[k] == xs[Position(xs, key, k)] && IsFirst(xs, key, Position(xs, key, k))
  {
    var n := |xs| - 1;
    if k < |Firsts(xs[..n], key)| {
      FirstsAreFirst(xs[..n], key, k);
      var i := Position(xs[..n], key, k);
      forall j | 0 <= j < i ensures key(xs[j]) != key(xs[i]) {
        assert key(xs[..n][j]) != key(xs[..n][i]);
      }
    }
  }

  /** Kept elements stand in the order of xs. */
  lemma {:induction false} FirstsInOrder<V, K>(xs: seq<V>, key: V -> K, k: nat, l: nat)
    requires k < l < |Firsts(xs, key)|
    ensures Position(xs, key, k) < Position(xs, key, l)
  {
    var n := |xs| - 1;
    if l < |Firsts(xs[..n], key)| {
      FirstsInOrder(xs[..n], key, k, l);
    }
  }

  /** No key is kept twice. */
  lemma FirstsDistinct<V, K>(xs: seq<V>, key: V -> K, k: nat, l: nat)
    requires k < l < |Firsts(xs, key)|
    ensures key(Firsts(xs, key)[k]) != key(Firsts(xs, key)[l])
  {
    FirstsAreFirst(xs, key, k);
    FirstsAreFirst(xs, key, l);
    FirstsInOrder(xs, key, k, l);
  }

  /** The keys of a sequence: what the parsers and the fill handler remember in a set. */
  function Keys<V, K(==)>(xs: seq<V>, key: V -> K): set<K> {
    set i | 0 <= i < |xs| :: key(xs[i])
  }

  lemma KeysSnoc<V, K>(xs: seq<V>, x: V, key: V -> K)
    ensures Keys(xs + [x], key) == Keys(xs, key) + {key(x)}
    ensures Firsts(xs + [x], key) == Firsts(xs, key) + if key(x) in Keys(xs, key) then [] else [x]
  {
    var all := xs + [x];
    assert all[..|xs|] == xs;
    assert all[|xs|] == x;
    forall k | k in Keys(xs, key) + {key(x)} ensures k in Keys(all, key) {
      if k in Keys(xs, key) {
        var i :| 0 <= i < |xs| && key(xs[i]) == k;
        assert all[i] == xs[i];
      } else {
        assert key(all[|xs|]) == k;
      }
    }
    if key(x) in Keys(xs, key) {
      var i :| 0 <= i < |xs| && key(xs[i]) == key(x);
      assert key(all[i]) == key(all[|xs|]);
    }
  }

  /** Elements whose keys were all seen before change nothing. */
  lemma {:induction false} ReplayChangesNothing<V, K>(xs: seq<V>, again: seq<V>, key: V -> K)
    requires forall i :: 0 <= i < |again| ==> key(again[i]) in Keys(xs, key)
    ensures Firsts(xs + again, key) == Firsts(xs, key) && Keys(xs + again, key) == Keys(xs, key)
    decreases |again|
  {
    if again == [] {
      assert xs + again == xs;
    } else {
      var n := |again| - 1;
      assert forall i :: 0 <= i < n ==> again[..n][i] == again[i];
      ReplayChangesNothing(xs, again[..n], key);
      KeysSnoc(xs + again[..n], again[n], key);
      assert xs + again == xs + again[..n] + [again[n]];
    }
  }

  lemma {:induction false} SameKeysSameFirsts<V, K, L>(xs: seq<V>, coarse: V -> K, fine: V -> L)
    requires forall i, j :: 0 <= i < |xs| && 0 <= j < |xs| ==> (coarse(xs[i]) == coarse(xs[j]) <==> fine(xs[i]) == fine(xs[j]))
    ensures Firsts(xs, coarse) == Firsts(xs, fine)
  {
    if xs != [] {
      SameKeysSameFirsts(xs[..|xs| - 1], coarse, fine);
    }
  }

  /** Keeping the first of each coarse key loses nothing exactly when no two fine keys share a coarse one. */
  lemma CoarseKeyAgrees<V, K, L>(xs: seq<V>, coarse: V -> K, fine: V -> L, forget: L -> K)
    requires forall v :: v in xs ==> coarse(v) == forget(fine(v))
    ensures Firsts(xs, coarse) == Firsts(xs, fine) <==>
            forall i, j :: 0 <= i < |xs| && 0 <= j < |xs| && coarse(xs[i]) == coarse(xs[j]) ==> fine(xs[i]) == fine(xs[j])
  {
    if Firsts(xs, coarse) == Firsts(xs, fine) {
      forall i, j | 0 <= i < |xs| && 0 <= j < |xs| && coarse(xs[i]) == coarse(xs[j]) ensures fine(xs[i]) == fine(xs[j]) {
        SharedKey(xs, coarse, fine, forget, i, j);
      }
    } else if forall i, j :: 0 <= i < |xs| && 0 <= j < |xs| && coarse(xs[i]) == coarse(xs[j]) ==> fine(xs[i]) == fine(xs[j]) {
      SameKeysSameFirsts(xs, coarse, fine);
    }
  }

  lemma SharedKey<V, K, L>(xs: seq<V>, coarse: V -> K, fine: V -> L, forget: L -> K, i: nat, j: nat)
    requires forall v :: v in xs ==> coarse(v) == forget(fine(v))
    requires Firsts(xs, coarse) == Firsts(xs, fine)
    requires i < |xs| && j < |xs| && coarse(xs[i]) == coarse(xs[j])
    ensures fine(xs[i]) == fine(xs[j])
  {
    var out := Firsts(xs, fine);
    FirstsCover(xs, fine, i);
    FirstsCover(xs, fine, j);
    var k :| 0 <= k < |out| && fine(out[k]) == fine(xs[i]);
    var l :| 0 <= l < |out| && fine(out[l]) == fine(xs[j]);
    FirstsAreFirst(xs, fine, k);
    FirstsAreFirst(xs, fine, l);
    assert out[k] in xs && out[l] in xs && xs[i] in xs && xs[j] in xs;
    assert coarse(out[k]) == coarse(out[l]);
    if k < l {
      FirstsDistinct(xs, coarse, k, l);
    } else if l < k {
      FirstsDistinct(xs, coarse, l, k);
    }
  }

  /** An element that is first of its key is kept. */
  lemma FirstsKeep<V, K>(xs: seq<V>, key: V -> K, i: nat)
    requires i < |xs| && IsFirst(xs, key, i)
    ensures exists k :: 0 <= k < |Firsts(xs, key)| && Position(xs, key, k) == i
  {
    FirstsCover(xs, key, i);
    var k :| 0 <= k < |Firsts(xs, key)| && key(Firsts(xs, key)[k]) == key(xs[i]);
    FirstsAreFirst(xs, key, k);
    assert key(xs[Position(xs, key, k)]) == key(xs[i]);
  }

  function Each<A, B>(xs: seq<A>, f: A -> B): (ys: seq<B>)
    ensures |ys| == |xs| && forall i :: 0 <= i < |xs| ==> ys[i] == f(xs[i])
  {
    seq(|xs|, i requires 0 <= i < |xs| => f(xs[i]))
  }

  lemma {:induction false} FirstsOfEach<A, V, K>(xs: seq<A>, f: A -> V, key: V -> K, inner: A -> K)
    requires forall i :: 0 <= i < |xs| ==> inner(xs[i]) == key(f(xs[i]))
    ensures Firsts(Each(xs, f), key) == Each(Firsts(xs, inner), f)
  {
    if xs != [] {
      var n := |xs| - 1;
      FirstsOfEach(xs[..n], f, key, inner);
      assert Each(xs, f)[..n] == Each(xs[..n], f);
      assert IsFirst(Each(xs, f), key, n) <==> IsFirst(xs, inner, n);
    }
  }

  predicate Holds<V>(xs: seq<V>, mark: V -> bool) {
    exists k :: 0 <= k < |xs| && mark(xs[k])
  }

  /** Some marked element stands before every element of key `common` that is not after it. */
  predicate MarkedFirst<V, K(==)>(xs: seq<V>, key: V -> K, mark: V -> bool, common: K) {
    exists i :: 0 <= i < |xs| && mark(xs[i]) && forall j :: 0 <= j < i ==> key(xs[j]) != common
  }

  /** When all marked elements share one key, a marked element is kept exactly when one of them comes first of that key. */
  lemma MarkedKept<V, K>(xs: seq<V>, key: V -> K, mark: V -> bool, common: K)
    requires forall i :: 0 <= i < |xs| && mark(xs[i]) ==> key(xs[i]) == common
    ensures Holds(Firsts(xs, key), mark) <==> MarkedFirst(xs, key, mark, common)
  {
    if Holds(Firsts(xs, key), mark) {
      var k :| 0 <= k < |Firsts(xs, key)| && mark(Firsts(xs, key)[k]);
      FirstsAreFirst(xs, key, k);
    }
    if MarkedFirst(xs, key, mark, common) {
      var i :| 0 <= i < |xs| && mark(xs[i]) && forall j :: 0 <= j < i ==> key(xs[j]) != common;
      FirstsKeep(xs, key, i);
      var k :| 0 <= k < |Firsts(xs, key)| && Position(xs, key, k) == i;
      FirstsAreFirst(xs, key, k);
    }
  }

  // ----- what one more element changes ---------------------------------------------------------

  /** The elements kept from xs when some keys were seen before. */
  function NewFrom<V, K(==)>(xs: seq<V>, key: V -> K, seen: set<K>): seq<V> {
    if xs == [] then []
    else if key(xs[0]) in seen then NewFrom(xs[1..], key, seen)
    else [xs[0]] + NewFrom(xs[1..], key, seen + {key(xs[0])})
  }

  lemma {:induction false} FirstsAppend<V, K>(before: seq<V>, after: seq<V>, key: V -> K)
    ensures Firsts(before + after, key) == Firsts(before, key) + NewFrom(after, key, Keys(before, key))
    decreases |after|
  {
    var kept, seen := Firsts(before, key), Keys(before, key);
    if after == [] {
      assert before + after == before && kept + [] == kept;
    } else {
      var x, rest := after[0], after[1..];
      assert after == [x] + rest;
      Associates(before, [x], rest);
      KeysSnoc(before, x, key);
      FirstsAppend(before + [x], rest, key);
      if key(x) in seen {
        assert seen + {key(x)} == seen && kept + [] == kept;
      } else {
        Associates(kept, [x], NewFrom(rest, key, seen + {key(x)}));
      }
    }
  }

  lemma Cancels<V>(a: seq<V>, b: seq<V>, c: seq<V>)
    ensures a + b == a + c <==> b == c
  {
    assert (a + b)[|a|..] == b && (a + c)[|a|..] == c;
  }

  /** Having seen the key of the first new element already drops just that element. */
  lemma {:induction false} NewFromRest<V, K>(xs: seq<V>, key: V -> K, seen: set<K>)
    requires NewFrom(xs, key, seen) != []
    ensures NewFrom(xs, key, seen)[1..] == NewFrom(xs, key, seen + {key(NewFrom(xs, key, seen)[0])})
  {
    if key(xs[0]) in seen {
      NewFromRest(xs[1..], key, seen);
    }
  }

  /**
   One more element changes what is kept if and only if its key is new at its place, unless the next new
   element behind it is the very same, so that it only takes its place.
   */
  lemma InsertionExact<V, K>(before: seq<V>, x: V, after: seq<V>, key: V -> K)
    ensures Firsts(before + [x] + after, key) == Firsts(before + after, key) <==>
            var kept, others := |Firsts(before, key)|, Firsts(before + after, key);
            key(x) in Keys(before, key) || (kept < |others| && others[kept] == x)
  {
    var seen, kept := Keys(before, key), Firsts(before, key);
    KeysSnoc(before, x, key);
    FirstsAppend(before + [x], after, key);
    FirstsAppend(before, after, key);
    var next := NewFrom(after, key, seen);
    if key(x) in seen {
      assert seen + {key(x)} == seen && kept + [] == kept;
    } else {
      var rest := NewFrom(after, key, seen + {key(x)});
      Associates(kept, [x], rest);
      Cancels(kept, [x] + rest, next);
      assert next != [] ==> (kept + next)[|kept|] == next[0];
      if next != [] {
        NewFromRest(after, key, seen);
        assert next == [next[0]] + next[1..];
      }
    }
  }
}
