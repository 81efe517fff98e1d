/** The sliding-window limiter in front of the REST endpoints. Times are wall-clock milliseconds. */
module RateLimiter {

  /** The moment at which the next request is recorded, as a function of all recorded moments alone. */
  function Slot(history: seq<int>, limit: nat, window: nat, now: int, oversleep: nat): int
    requires limit >= 1
  {
    now + if Pause(history, limit, window, now) > 0 then Pause(history, limit, window, now) + oversleep else 0
  }

  /** How long a call sleeps: until the limit-th youngest request is 10 ms outside the window, if it is still inside. */
  function Pause(history: seq<int>, limit: nat, window: nat, now: int): int
    requires limit >= 1
  {
    if |history| < limit || now - history[|history| - limit] > window then 0
    else history[|history| - limit] + window + 10 - now
  }

  /** Dropping the expired prefix, front first. */
  function Pruned(times: seq<int>, window: nat, now: int): seq<int> {
    if times != [] && now - times[0] > window then Pruned(times[1..], window, now) else times
  }

  ghost predicate Ascending(times: seq<int>) {
    forall i, j :: 0 <= i < j < |times| ==> times[i] <= times[j]
  }

  /** Any limit + 1 consecutive requests span more than the window. */
  ghost predicate Spaced(history: seq<int>, limit: nat, window: nat) {
    forall i :: 0 <= i && i + limit < |history| ==> history[i + limit] - history[i] > window
  }

  lemma {:induction false} PrunedIsSuffix(times: seq<int>, window: nat, now: int)
    requires Ascending(times)
    ensures |Pruned(times, window, now)| <= |times|
    ensures var k := |times| - |Pruned(times, window, now)|;
      && Pruned(times, window, now) == times[k..]
      && (forall i :: 0 <= i < k ==> now - times[i] > window)
      && (forall i :: k <= i < |times| ==> now - times[i] <= window)
  {
    if times != [] && now - times[0] > window {
      PrunedIsSuffix(times[1..], window, now);
      var k := |times[1..]| - |Pruned(times[1..], window, now)|;
      assert times[1..][k..] == times[k + 1..];
      forall i | 0 <= i < k + 1 ensures now - times[i] > window {
        if i > 0 { assert times[i] == times[1..][i - 1]; }
      }
      forall i | k + 1 <= i < |times| ensures now - times[i] <= window {
        assert times[i] == times[1..][i - 1];
      }
    }
  }

  /** Recording the slot keeps the history ordered and spaced, whatever the limiter remembers. */
  lemma SlotKeepsSpacing(history: seq<int>, limit: nat, window: nat, now: int, oversleep: nat)
    requires limit >= 1 && Ascending(history) && Spaced(history, limit, window)
    requires history != [] ==> history[|history| - 1] <= now
    ensures var h := history + [Slot(history, limit, window, now, oversleep)]; Ascending(h) && Spaced(h, limit, window)
  {
    var at := Slot(history, limit, window, now, oversleep);
    var h := history + [at];
    if |history| >= limit {
      assert history[|history| - limit] <= history[|history| - 1] <= now;
      assert at - history[|history| - limit] > window;
    }
    forall i | 0 <= i && i + limit < |h| ensures h[i + limit] - h[i] > window {
      if i + limit == |history| {
        assert h[i] == history[|history| - limit];
      }
    }
  }

  /** One call: the moment it is made and how much longer than asked its sleep took. */
  datatype Call = Call(now: int, oversleep: nat)

  /** All moments recorded by a sequence of calls. */
  function Recorded(calls: seq<Call>, limit: nat, window: nat): (history: seq<int>)
    requires limit >= 1
    ensures |history| == |calls|
  {
    if calls == [] then []
    else
      var before := Recorded(calls[..|calls| - 1], limit, window);
      var call := calls[|calls| - 1];
      before + [Slot(before, limit, window, call.now, call.oversleep)]
  }

  /** The clock does not run backwards: each call is made no earlier than the last one returned. */
  ghost predicate Clocked(calls: seq<Call>, limit: nat, window: nat)
    requires limit >= 1
  {
    forall i :: 1 <= i < |calls| ==> Recorded(calls[..i], limit, window)[i - 1] <= calls[i].now
  }

  lemma {:induction false} RunIsSpaced(calls: seq<Call>, limit: nat, window: nat)
    requires limit >= 1 && Clocked(calls, limit, window)
    ensures Ascending(Recorded(calls, limit, window)) && Spaced(Recorded(calls, limit, window), limit, window)
  {
    if calls != [] {
      var n := |calls| - 1;
      var call := calls[n];
      forall i | 1 <= i < n ensures Recorded(calls[..n][..i], limit, window)[i - 1] <= calls[..n][i].now {
        assert calls[..n][..i] == calls[..i];
      }
      RunIsSpaced(calls[..n], limit, window);
      SlotKeepsSpacing(Recorded(calls[..n], limit, window), limit, window, call.now, call.oversleep);
    }
  }

  lemma LimitApart(h: seq<int>, limit: nat, window: nat, i: nat, j: nat)
    requires limit >= 1 && Ascending(h) && Spaced(h, limit, window) && i + limit <= j < |h|
    ensures h[j] - h[i] > window
  {
    assert h[i + limit] - h[i] > window;
    assert i + limit < j ==> h[i + limit] <= h[j];
  }

  /** No window of the advertised length, wherever it starts, ever contains more than `limit` requests. */
  lemma AtMostLimitPerWindow(calls: seq<Call>, limit: nat, window: nat, from: int, i: nat, j: nat)
    requires limit >= 1 && Clocked(calls, limit, window) && i <= j < |calls|
    requires from <= Recorded(calls, limit, window)[i] && Recorded(calls, limit, window)[j] <= from + window
    ensures j - i < limit
  {
    RunIsSpaced(calls, limit, window);
    if i + limit <= j {
      LimitApart(Recorded(calls, limit, window), limit, window, i, j);
    }
  }

  /** A call sleeps exactly when `limit` recorded requests lie within the last window, and for 10 ms to window + 10 ms. */
  lemma SleepsOnlyWhenFull(history: seq<int>, limit: nat, window: nat, now: int)
    requires limit >= 1 && Ascending(history)
    requires history != [] ==> history[|history| - 1] <= now
    ensures Pause(history, limit, window, now) > 0 <==>
            |history| >= limit && forall i :: |history| - limit <= i < |history| ==> now - window <= history[i] <= now
    ensures Pause(history, limit, window, now) > 0 ==> 10 <= Pause(history, limit, window, now) <= window + 10
  {
    if |history| >= limit {
      assert history[|history| - limit] <= history[|history| - 1];
    }
  }

  /** At that moment the limit-th youngest request, and so each of the `limit` youngest, is still inside the window. */
  ghost predicate Full(history: seq<int>, limit: nat, window: nat, at: int) {
    |history| >= limit && forall i :: |history| - limit <= i < |history| ==> at - window <= history[i]
  }

  /**
   When it is asked to sleep, a call wakes 10 ms behind the last moment at which the window is still
   full; when it is not, the window is full at no later moment either.
   */
  lemma PauseExactly(history: seq<int>, limit: nat, window: nat, now: int, elapsed: nat)
    requires limit >= 1 && Ascending(history)
    requires history != [] ==> history[|history| - 1] <= now
    ensures Full(history, limit, window, now + elapsed) <==> elapsed + 10 <= Pause(history, limit, window, now)
    ensures Pause(history, limit, window, now) > 0 ==> Full(history, limit, window, now + Pause(history, limit, window, now) - 10)
  {
    if |history| >= limit {
      assert history[|history| - limit] <= history[|history| - 1];
    }
  }

  /** What the deque remembers at moment `now`: a suffix of the history, short of requests that left the window. */
  ghost predicate Tracks(times: seq<int>, history: seq<int>, window: nat, now: int) {
    && |times| <= |history| && times == history[|history| - |times|..]
    && (forall i :: 0 <= i < |history| - |times| ==> now - history[i] > window)
  }

  lemma PrunedTracks(times: seq<int>, history: seq<int>, window: nat, before: int, now: int)
    requires Ascending(history) && Tracks(times, history, window, before) && before <= now
    ensures var kept := Pruned(times, window, now);
      && Tracks(kept, history, window, now) && |kept| <= |times|
      && (forall i :: |history| - |kept| <= i < |history| ==> now - history[i] <= window)
  {
    PrunedIsSuffix(times, window, now);
    var d, k := |history| - |times|, |times| - |Pruned(times, window, now)|;
    assert times[k..] == history[d + k..];
    assert forall i :: d <= i < |history| ==> history[i] == times[i - d];
  }

  /** The limit is reached in the deque exactly when a pause is due. */
  lemma FullMeansPause(times: seq<int>, history: seq<int>, limit: nat, window: nat, now: int)
    requires limit >= 1 && Ascending(history) && Tracks(times, history, window, now) && |times| <= limit
    requires forall i :: |history| - |times| <= i < |history| ==> now - history[i] <= window
    requires history != [] ==> history[|history| - 1] <= now
    ensures |times| >= limit <==> Pause(history, limit, window, now) > 0
  {
    if |history| >= limit {
      assert history[|history| - limit] <= history[|history| - 1];
      if |times| < limit {
        assert now - history[|history| - limit] > window;
      }
    }
  }

  lemma PrunedFits(times: seq<int>, history: seq<int>, limit: nat, window: nat, before: int, now: int)
    requires limit >= 1 && Ascending(history) && |times| <= limit && Tracks(times, history, window, before) && before <= now
    requires history != [] ==> history[|history| - 1] <= now
    ensures var kept := Pruned(times, window, now);
      && Tracks(kept, history, window, now) && |kept| <= limit
      && (|kept| >= limit <==> Pause(history, limit, window, now) > 0)
  {
    PrunedTracks(times, history, window, before, now);
    FullMeansPause(Pruned(times, window, now), history, limit, window, now);
  }

  lemma TracksSnoc(times: seq<int>, history: seq<int>, window: nat, now: int)
    requires Tracks(times, history, window, now)
    ensures Tracks(times + [now], history + [now], window, now)
  {
  }

  class RateLimiter {
    const limit: nat
    const windowSizeMs: nat
    var requestTimes: seq<int>
    ghost var history: seq<int>

    ghost predicate Valid()
      reads this
    {
      && limit >= 1 && Ascending(history) && Spaced(history, limit, windowSizeMs)
      && |requestTimes| <= limit
      && (history == [] ==> requestTimes == [])
      && (history != [] ==> Tracks(requestTimes, history, windowSizeMs, history[|history| - 1]))
    }

    constructor (limit: nat, windowMs: nat)
      requires limit >= 1
      ensures Valid() && history == [] && this.limit == limit && windowSizeMs == windowMs
    {
      this.limit, windowSizeMs := limit, windowMs;
      requestTimes, history := [], [];
    }

    method DropExpired(now: int)
      modifies this`requestTimes
      ensures requestTimes == Pruned(old(requestTimes), windowSizeMs, now)
    {
      while requestTimes != [] && now - requestTimes[0] > windowSizeMs
        invariant Pruned(requestTimes, windowSizeMs, now) == Pruned(old(requestTimes), windowSizeMs, now)
        decreases |requestTimes|
      {
        requestTimes := requestTimes[1..];
      }
    }

    /** Drops the requests that have left the window; what stays fills the limit exactly when a pause is due. */
    method Prune(now: int, ghost before: int)
      requires limit >= 1 && Ascending(history) && |requestTimes| <= limit
      requires Tracks(requestTimes, history, windowSizeMs, before) && before <= now
      requires history != [] ==> history[|history| - 1] <= now
      modifies this`requestTimes
      ensures Tracks(requestTimes, history, windowSizeMs, now) && |requestTimes| <= limit
      ensures |requestTimes| >= limit <==> Pause(history, limit, windowSizeMs, now) > 0
    {
      PrunedFits(requestTimes, history, limit, windowSizeMs, before, now);
      DropExpired(now);
    }

    /** `oversleep` is how much longer than asked the thread slept; the clock never runs backwards. */
    method Wait(now: int, oversleep: nat) returns (slept: int)
      requires Valid()
      requires history != [] ==> history[|history| - 1] <= now
      modifies this`requestTimes, this`history
      ensures Valid()
      ensures slept == Pause(old(history), limit, windowSizeMs, now)
      ensures history == old(history) + [Slot(old(history), limit, windowSizeMs, now, oversleep)]
    {
      Prune(now, if history == [] then now else history[|history| - 1]);
      var at := now;
      slept := 0;
      if |requestTimes| >= limit {
        assert requestTimes[0] == history[|history| - limit];
        var waitTime := requestTimes[0] + windowSizeMs - now + 10;
        if waitTime > 0 {
          slept := waitTime;
          at := now + waitTime + oversleep;
          Prune(at, now);
        }
      }
      Record(at, now, oversleep);
    }

    method Record(at: int, ghost now: int, ghost oversleep: nat)
      requires limit >= 1 && Ascending(history) && Spaced(history, limit, windowSizeMs)
      requires history != [] ==> history[|history| - 1] <= now
      requires at == Slot(history, limit, windowSizeMs, now, oversleep)
      requires |requestTimes| < limit && Tracks(requestTimes, history, windowSizeMs, at)
      modifies this`requestTimes, this`history
      ensures Valid() && history == old(history) + [at] && requestTimes == old(requestTimes) + [at]
    {
      SlotKeepsSpacing(history, limit, windowSizeMs, now, oversleep);
      TracksSnoc(requestTimes, history, windowSizeMs, at);
      requestTimes := requestTimes + [at];
      history := history + [at];
    }
  }
}
