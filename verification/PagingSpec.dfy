/** A history that grows while it is read page by page, newest page first. */
module PagingSpec {
  import opened Wrappers

  ghost predicate Ascending<R>(history: seq<R>, ts: R -> nat) {
    forall i, j :: 0 <= i < j < |history| ==> ts(history[i]) < ts(history[j])
  }

  /** The records strictly between two moments, oldest first. */
  function Between<R>(history: seq<R>, ts: R -> nat, from: int, to: int): seq<R> {
    if history == [] then []
    else
      var n := |history| - 1;
      Between(history[..n], ts, from, to) + if from < ts(history[n]) < to then [history[n]] else []
  }

  function Reverse<R>(rows: seq<R>): (reversed: seq<R>)
    ensures |reversed| == |rows| && forall i :: 0 <= i < |rows| ==> reversed[i] == rows[|rows| - 1 - i]
  {
    seq(|rows|, i requires 0 <= i < |rows| => rows[|rows| - 1 - i])
  }

  /** The endpoint: the newest `size` records older than `after` and newer than `before`, newest first. */
  function Page<R>(history: seq<R>, ts: R -> nat, after: Option<int>, before: Option<int>, size: nat): seq<R> {
    var matching := Matching(history, ts, after, before);
    Reverse(if size < |matching| then matching[|matching| - size..] else matching)
  }

  function Matching<R>(history: seq<R>, ts: R -> nat, after: Option<int>, before: Option<int>): seq<R> {
    if history == [] then []
    else
      var n := |history| - 1;
      Matching(history[..n], ts, after, before) +
      if (after.Some? ==> ts(history[n]) < after.value) && (before.Some? ==> ts(history[n]) > before.value) then [history[n]] else []
  }

  /** The venue as the client meets it: what it holds, and how much it gives out, at each request. */
  datatype Venue<!R> = Venue(snapshot: nat -> seq<R>, size: nat -> nat, ts: R -> nat)

  /** Later snapshots only append. Their contents may differ from the first in its newest record alone, which may still be forming. */
  ghost predicate Growing<R>(venue: Venue<R>) {
    && (forall k: nat :: Ascending(venue.snapshot(k), venue.ts) && venue.size(k) >= 1)
    && (forall k: nat :: Extends(venue.snapshot(0), venue.snapshot(k), venue.ts))
  }

  ghost predicate Extends<R>(first: seq<R>, later: seq<R>, ts: R -> nat) {
    && |first| <= |later|
    && (forall i :: 0 <= i < |first| ==> ts(first[i]) == ts(later[i]))
    && (forall i :: 0 <= i < |first| - 1 ==> first[i] == later[i])
  }

  /** The client's request: each of the two bounds is left out when the other one is -1. */
  function Fetch<R>(venue: Venue<R>, k: nat, from: int, to: int): seq<R> {
    Page(venue.snapshot(k), venue.ts, if from != -1 then Some(to) else None, if to != -1 then Some(from) else None, venue.size(k))
  }

  function Oldest<R>(venue: Venue<R>, page: seq<R>): nat
    requires page != []
  {
    venue.ts(page[|page| - 1])
  }

  /** The page in hand after k rounds of the loop. */
  function Held<R>(venue: Venue<R>, from: int, to: int, k: nat): seq<R> {
    if k == 0 then (if from < to then Fetch(venue, 0, from, to) else [])
    else
      var page := Held(venue, from, to, k - 1);
      if page != [] && from < Oldest(venue, page) then Fetch(venue, k, from, Oldest(venue, page)) else []
  }

  lemma {:induction false} MatchingIsBetween<R>(history: seq<R>, ts: R -> nat, from: int, to: int)
    requires from != -1
    ensures Matching(history, ts, Some(to), if to != -1 then Some(from) else None) == Between(history, ts, from, to)
  {
    if history != [] {
      MatchingIsBetween(history[..|history| - 1], ts, from, to);
    }
  }

  /** How many records are older than t. */
  function Below<R>(history: seq<R>, ts: R -> nat, t: int): (n: nat)
    ensures n <= |history|
  {
    if history == [] then 0
    else Below(history[..|history| - 1], ts, t) + if ts(history[|history| - 1]) < t then 1 else 0
  }

  lemma {:induction false} BelowSplits<R>(history: seq<R>, ts: R -> nat, t: int)
    requires Ascending(history, ts)
    ensures forall i :: 0 <= i < |history| ==> (ts(history[i]) < t <==> i < Below(history, ts, t))
  {
    if history != [] {
      var n := |history| - 1;
      BelowSplits(history[..n], ts, t);
      assert forall i :: 0 <= i < n ==> history[..n][i] == history[i];
    }
  }

  ghost predicate Window<R>(history: seq<R>, ts: R -> nat, from: int, to: int, a: nat, b: nat) {
    && a <= b <= |history|
    && (forall i :: 0 <= i < a ==> ts(history[i]) <= from)
    && (forall i :: a <= i < b ==> from < ts(history[i]) < to)
    && (forall i :: b <= i < |history| ==> to <= ts(history[i]))
  }

  lemma SliceSnoc<R>(history: seq<R>, a: nat, b: nat)
    requires history != [] && a <= b <= |history|
    ensures
      var n := |history| - 1;
      history[a..b] == history[..n][(if a <= n then a else n)..(if b <= n then b else n)] + if a <= n < b then [history[n]] else []
  {
  }

  lemma {:induction false} BetweenIsSlice<R>(history: seq<R>, ts: R -> nat, from: int, to: int, a: nat, b: nat)
    requires from < to && Window(history, ts, from, to, a, b)
    ensures Between(history, ts, from, to) == history[a..b]
  {
    if history != [] {
      var n := |history| - 1;
      var a', b' := if a <= n then a else n, if b <= n then b else n;
      assert forall i :: 0 <= i < n ==> history[..n][i] == history[i];
      BetweenIsSlice(history[..n], ts, from, to, a', b');
      SliceSnoc(history, a, b);
    }
  }

  lemma WindowExists<R>(history: seq<R>, ts: R -> nat, from: int, to: int) returns (a: nat, b: nat)
    requires Ascending(history, ts) && from < to
    ensures Window(history, ts, from, to, a, b) && Between(history, ts, from, to) == history[a..b]
  {
    a, b := Below(history, ts, from + 1), Below(history, ts, to);
    BelowSplits(history, ts, from + 1);
    BelowSplits(history, ts, to);
    if b < |history| {
      assert !(ts(history[b]) < from + 1);
    }
    BetweenIsSlice(history, ts, from, to, a, b);
  }

  /** Asking a later snapshot for what is older than the j-th wanted record gives the first j wanted records. */
  lemma OlderRecordsKept<R>(first: seq<R>, later: seq<R>, ts: R -> nat, from: int, to: int, j: nat)
    requires Ascending(first, ts) && Ascending(later, ts) && Extends(first, later, ts) && from < to
    requires j < |Between(first, ts, from, to)|
    ensures
      var all := Between(first, ts, from, to);
      from < ts(all[j]) < to && Between(later, ts, from, ts(all[j])) == all[..j]
  {
    var a, b := WindowExists(first, ts, from, to);
    var t := ts(first[a + j]);
    assert Window(later, ts, from, t, a, a + j);
    BetweenIsSlice(later, ts, from, t, a, a + j);
    SlicesAgree(first, later, ts, a, b, j);
  }

  lemma SlicesAgree<R>(first: seq<R>, later: seq<R>, ts: R -> nat, a: nat, b: nat, j: nat)
    requires Extends(first, later, ts) && a + j < b <= |first|
    ensures later[a..a + j] == first[a..b][..j]
  {
    assert forall i :: a <= i < a + j ==> first[i] == later[i];
  }

  lemma BetweenAscends<R>(history: seq<R>, ts: R -> nat, from: int, to: int)
    requires Ascending(history, ts) && from < to
    ensures Ascending(Between(history, ts, from, to), ts)
  {
    var a, b := WindowExists(history, ts, from, to);
  }

  /** The first m of the wanted records, their newest `size` turned around: one page. */
  lemma PageOfPrefix<R>(venue: Venue<R>, k: nat, from: int, to: int, rows: seq<R>)
    requires from != -1 && venue.size(k) >= 1
    requires Between(venue.snapshot(k), venue.ts, from, to) == rows
    ensures
      var page := Fetch(venue, k, from, to);
      |page| <= |rows| && page == Reverse(rows[|rows| - |page|..]) && (page == [] <==> rows == [])
  {
    MatchingIsBetween(venue.snapshot(k), venue.ts, from, to);
  }

  lemma ReverseJoins<R>(rows: seq<R>, low: nat, mid: nat)
    requires low <= mid <= |rows|
    ensures Reverse(rows[mid..]) + Reverse(rows[low..mid]) == Reverse(rows[low..])
  {
  }

  /** The part of the wanted records that a page in hand shows, when `rest` of them are still to come. */
  ghost predicate Shows<R>(page: seq<R>, all: seq<R>, rest: nat) {
    |page| <= rest <= |all| && page == Reverse(all[rest - |page|..rest]) && (page == [] ==> rest == 0)
  }

  /** What the caller asks for: the records strictly between two moments at the time of the first request. */
  function Wanted<R>(venue: Venue<R>, from: int, to: int): seq<R> {
    if from < to then Between(venue.snapshot(0), venue.ts, from, to) else []
  }

  /** Between two rounds: what is collected is the wanted records down to `rest`, and the page in hand continues there. */
  ghost predicate Underway<R>(venue: Venue<R>, from: int, to: int, collected: seq<R>, page: seq<R>, rest: nat) {
    var all := Wanted(venue, from, to);
    rest <= |all| && collected == Reverse(all[rest..]) && Shows(page, all, rest) && (page != [] ==> from < to)
  }

  lemma Begins<R>(venue: Venue<R>, from: int, to: int)
    requires Growing(venue) && from != -1
    ensures Underway(venue, from, to, [], if from < to then Fetch(venue, 0, from, to) else [], |Wanted(venue, from, to)|)
  {
    var all := Wanted(venue, from, to);
    assert all[|all|..] == [];
    if from < to {
      PageOfPrefix(venue, 0, from, to, all);
      var page := Fetch(venue, 0, from, to);
      assert all[|all| - |page|..] == all[|all| - |page|..|all|];
    }
  }

  /** Continuing below the last record of a page shows the next stretch of the same wanted records. */
  lemma Continues<R>(venue: Venue<R>, from: int, to: int, request: nat, collected: seq<R>, page: seq<R>, rest: nat)
    requires Growing(venue) && from != -1 && page != [] && Underway(venue, from, to, collected, page, rest)
    ensures from < venue.ts(page[|page| - 1]) && |page| <= rest
    ensures Underway(venue, from, to, collected + page, Fetch(venue, request, from, venue.ts(page[|page| - 1])), rest - |page|)
  {
    var all, next := Wanted(venue, from, to), rest - |page|;
    assert Extends(venue.snapshot(0), venue.snapshot(request), venue.ts);
    OlderRecordsKept(venue.snapshot(0), venue.snapshot(request), venue.ts, from, to, next);
    assert page[|page| - 1] == all[next];
    PageOfPrefix(venue, request, from, venue.ts(all[next]), all[..next]);
    var following := Fetch(venue, request, from, venue.ts(all[next]));
    assert all[..next][next - |following|..] == all[next - |following|..next];
    ReverseJoins(all, next, rest);
  }

  lemma Finishes<R>(venue: Venue<R>, from: int, to: int, collected: seq<R>, rest: nat)
    requires Underway(venue, from, to, collected, [], rest)
    ensures collected == Reverse(Wanted(venue, from, to))
  {
  }

  lemma {:induction false} AllMatch<R>(history: seq<R>, ts: R -> nat)
    ensures Matching(history, ts, None, Some(-1)) == history
  {
    if history != [] {
      AllMatch(history[..|history| - 1], ts);
    }
  }

  /** Without a lower bound the upper one is never sent, so the newest page comes back for ever. */
  lemma {:induction false} OpenStartNeverEnds<R>(venue: Venue<R>, to: int, k: nat)
    requires Growing(venue) && to > -1 && venue.snapshot(0) != []
    ensures Held(venue, -1, to, k) != []
  {
    AllMatch(venue.snapshot(k), venue.ts);
    assert Extends(venue.snapshot(0), venue.snapshot(k), venue.ts);
    if k > 0 {
      OpenStartNeverEnds(venue, to, k - 1);
    }
  }

  lemma PageInRange<R>(venue: Venue<R>, k: nat, from: int, to: int)
    requires from != -1 && venue.size(k) >= 1
    ensures var page := Fetch(venue, k, from, to); page != [] ==> from < venue.ts(page[|page| - 1]) < to
  {
    var rows, page := Between(venue.snapshot(k), venue.ts, from, to), Fetch(venue, k, from, to);
    PageOfPrefix(venue, k, from, to, rows);
    if page != [] {
      BetweenIn(venue.snapshot(k), venue.ts, from, to, |rows| - |page|);
    }
  }

  /** The page in hand after k rounds ends above the lower bound and at least k below the upper one. */
  ghost predicate MovedDown<R>(venue: Venue<R>, from: int, to: int, page: seq<R>, k: nat) {
    page != [] ==> from < Oldest(venue, page) < to - k
  }

  lemma MovesDown<R>(venue: Venue<R>, from: int, to: int, page: seq<R>, k: nat)
    requires Growing(venue) && from != -1 && page != [] && MovedDown(venue, from, to, page, k)
    ensures MovedDown(venue, from, to, Fetch(venue, k + 1, from, Oldest(venue, page)), k + 1)
  {
    PageInRange(venue, k + 1, from, Oldest(venue, page));
  }

  /** Any other start ends: each round moves the upper bound down. */
  lemma {:induction false} HeldMovesDown<R>(venue: Venue<R>, from: int, to: int, k: nat)
    requires Growing(venue) && from != -1
    ensures MovedDown(venue, from, to, Held(venue, from, to, k), k)
  {
    if k == 0 {
      PageInRange(venue, 0, from, to);
    } else {
      HeldMovesDown(venue, from, to, k - 1);
      var page := Held(venue, from, to, k - 1);
      if page != [] && from < Oldest(venue, page) {
        MovesDown(venue, from, to, page, k - 1);
        assert Held(venue, from, to, k) == Fetch(venue, k, from, Oldest(venue, page));
      } else {
        assert Held(venue, from, to, k) == [];
      }
    }
  }

  lemma {:induction false} BetweenIn<R>(history: seq<R>, ts: R -> nat, from: int, to: int, i: nat)
    requires i < |Between(history, ts, from, to)|
    ensures from < ts(Between(history, ts, from, to)[i]) < to
  {
    if i < |Between(history[..|history| - 1], ts, from, to)| {
      BetweenIn(history[..|history| - 1], ts, from, to, i);
    }
  }

  ghost predicate Ends<R>(venue: Venue<R>, from: int, to: int) {
    exists k: nat :: Held(venue, from, to, k) == []
  }

  /** The download ends exactly unless it is asked for an open start of a history that has records. */
  lemma EndsUnlessOpenStart<R>(venue: Venue<R>, from: int, to: int)
    requires Growing(venue)
    ensures Ends(venue, from, to) <==> from != -1 || to <= -1 || venue.snapshot(0) == []
  {
    if from == -1 && to > -1 && venue.snapshot(0) != [] {
      forall k: nat ensures Held(venue, from, to, k) != [] {
        OpenStartNeverEnds(venue, to, k);
      }
    } else if from < to && from != -1 {
      var k := to - from;
      HeldMovesDown(venue, from, to, k);
      assert Held(venue, from, to, k) == [];
    } else {
      assert Held(venue, from, to, 0) == [];
    }
  }

  lemma {:induction false} BetweenExactly<R>(history: seq<R>, ts: R -> nat, from: int, to: int, x: R)
    ensures x in Between(history, ts, from, to) <==> x in history && from < ts(x) < to
  {
    if history != [] {
      var n := |history| - 1;
      BetweenExactly(history[..n], ts, from, to, x);
      assert history == history[..n] + [history[n]];
    }
  }

  /** A record is wanted exactly if the venue held it at the first request and its time is strictly inside the bounds. */
  lemma WantedExactly<R>(venue: Venue<R>, from: int, to: int, x: R)
    requires Growing(venue)
    ensures x in Wanted(venue, from, to) <==> x in venue.snapshot(0) && from < venue.ts(x) < to
    ensures Ascending(Wanted(venue, from, to), venue.ts)
  {
    BetweenExactly(venue.snapshot(0), venue.ts, from, to, x);
    if from < to {
      BetweenAscends(venue.snapshot(0), venue.ts, from, to);
    }
  }
}
