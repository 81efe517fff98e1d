/**
 A session that can no longer read is always let go: whatever the io thread delivers, only a bounded
 number of callbacks can still hold it, and then the owner's weak reference expires.
 */
module SessionRelease {
  import opened Wrappers
  import opened SubscriptionCodec
  import opened SessionSpec
  import opened SessionProofs
  import opened SessionRuns

  /** Nothing can be read any more: the transport is gone, or no operation is outstanding on it. */
  predicate Dead(s: Session) {
    !s.open || s.tasks.chain == multiset{}
  }

  /** The callbacks that hold a reference to the session. */
  predicate HoldsSession(e: Event) {
    !e.CloseDone? && !e.Pong? && !e.TransportLost?
  }

  function Later(a: int, b: int): int { if a > b then a else b }

  /** How many more ticks can re-arm the timer before the pong age crosses the threshold. */
  function TicksLeft(s: Session, now: int): nat {
    var first := Later(s.timerExpiry, now);
    var limit := Base(s) + STALE_AFTER_MS;
    if first > limit then 0 else (limit - first) / PING_INTERVAL_MS + 1
  }

  predicate HasLive(s: Session) {
    || Started(Resolve, true) in s.tasks.chain || Started(Connect, true) in s.tasks.chain || Started(TlsHandshake, true) in s.tasks.chain
    || Started(WsHandshake, true) in s.tasks.chain || Started(Write, true) in s.tasks.chain || Started(Read, true) in s.tasks.chain
  }

  function ChainRank(s: Session): nat {
    if s.tasks.chain == multiset{} then 0 else if HasLive(s) then 10 else 1
  }

  function WaitRank(s: Session, now: int): nat {
    if s.tasks.waits == multiset{} then 0 else if Aborted in s.tasks.waits then 1 else 1 + TicksLeft(s, now)
  }

  /** Bounds the callbacks that can still hold a dead session. */
  function Rank(s: Session, now: int): nat {
    ChainRank(s) + WaitRank(s, now)
  }

  lemma TicksRunOut(expiry: int, now: int, limit: int)
    requires expiry <= now <= limit
    ensures (if now + PING_INTERVAL_MS > limit then 0 else (limit - (now + PING_INTERVAL_MS)) / PING_INTERVAL_MS + 1)
            == (limit - now) / PING_INTERVAL_MS
  {
  }

  /** Waiting never raises the rank. */
  lemma RankInTime(s: Session, now: int, later: int)
    requires now <= later
    ensures Rank(s, later) <= Rank(s, now)
  {
    var limit := Base(s) + STALE_AFTER_MS;
    var a, b := Later(s.timerExpiry, now), Later(s.timerExpiry, later);
    if b <= limit {
      assert (limit - b) / PING_INTERVAL_MS <= (limit - a) / PING_INTERVAL_MS;
    }
  }

  lemma RankBound(s: Session, now: int)
    requires Inv(s, now)
    ensures Rank(s, now) <= 15
    ensures Rank(s, now) == 0 <==> Expired(s)
  {
    if s.connectedAtMs > 0 {
      var first, limit := Later(s.timerExpiry, now), Base(s) + STALE_AFTER_MS;
      assert limit - first <= STALE_AFTER_MS;
      if first <= limit {
        assert (limit - first) / PING_INTERVAL_MS <= STALE_AFTER_MS / PING_INTERVAL_MS;
      }
    }
  }

  /** From s to t the session stays dead and its rank falls by at least `drop`. */
  predicate Sinks(s: Session, t: Session, now: int, drop: nat) {
    Dead(t) && Rank(t, now) + drop <= Rank(s, now)
  }

  lemma DeadTick(s: Session, due: int, now: int)
    requires Inv(s, now) && Dead(s) && Armed(due) in s.tasks.waits && due <= now
    ensures Sinks(s, Apply(s, TimerFired(due), now), now, 1)
  {
    SoleElement(s.tasks.waits, Armed(due));
    var t := OnTick(s, due, now);
    assert Apply(s, TimerFired(due), now) == t;
    assert ChainRank(t) == ChainRank(s);
    var limit := Base(s) + STALE_AFTER_MS;
    if !Stale(s, now) {
      assert now <= limit;
      TicksRunOut(s.timerExpiry, now, limit);
      assert WaitRank(s, now) == 2 + (limit - now) / PING_INTERVAL_MS;
      assert t.tasks.waits == multiset{Armed(now + PING_INTERVAL_MS)};
    }
  }

  lemma CancelRank(s: Session, tickQueued: bool, now: int)
    requires Inv(s, now)
    ensures Rank(CancelTimer(s, tickQueued), now) <= Rank(s, now)
  {
  }

  lemma DeadOpFailed(s: Session, op: Op, live: bool, now: int)
    requires Inv(s, now) && Started(op, live) in s.tasks.chain
    ensures Sinks(s, Without(s, op, live), now, 1)
  {
    SoleElement(s.tasks.chain, Started(op, live));
    assert Without(s, op, live).tasks.chain == multiset{};
    assert ChainRank(s) >= 1;
  }

  /** A new operation on a lost transport cannot succeed. */
  lemma DeadStart(s: Session, op: Op)
    requires s.tasks.chain == multiset{} && !s.open
    ensures ChainRank(StartOp(s, op)) == 1
  {
    assert StartOp(s, op).tasks.chain == multiset{Started(op, false)};
  }

  lemma DeadHandshake(s: Session, now: int)
    requires Inv(s, now) && Dead(s) && Started(WsHandshake, true) in s.tasks.chain && now > 0
    ensures Sinks(s, Opened(Without(s, WsHandshake, true), now), now, 1)
  {
    SoleElement(s.tasks.chain, Started(WsHandshake, true));
    var s0 := Without(s, WsHandshake, true);
    var t := Opened(s0, now);
    assert s0.tasks.chain == multiset{};
    assert t.tasks.chain == multiset{Started(Write, false)};
    assert ChainRank(s) == 10 && ChainRank(t) == 1;
    assert Base(t) == now;
    assert WaitRank(t, now) <= 5;
  }

  lemma DeadContinue(s: Session, op: Op, now: int)
    requires Inv(s, now) && Dead(s) && Started(op, true) in s.tasks.chain && op != Read && !op.WsHandshake?
    ensures Sinks(s, StartOp(Without(s, op, true), NextOp(op)), now, 1)
  {
    SoleElement(s.tasks.chain, Started(op, true));
    var s0 := Without(s, op, true);
    DeadStart(s0, NextOp(op));
    assert ChainRank(s) == 10;
    assert WaitRank(StartOp(s0, NextOp(op)), now) == WaitRank(s, now);
  }

  lemma DeadOp(s: Session, op: Op, live: bool, ok: bool, now: int)
    requires Inv(s, now) && Dead(s) && Started(op, live) in s.tasks.chain && op != Read && (ok ==> live) && now > 0
    ensures Sinks(s, Apply(s, OpDone(op, live, ok), now), now, 1)
  {
    assert Apply(s, OpDone(op, live, ok), now) == OnOpDone(s, op, live, ok, now);
    if !ok {
      DeadOpFailed(s, op, live, now);
    } else if op.WsHandshake? {
      DeadHandshake(s, now);
    } else {
      DeadContinue(s, op, now);
    }
  }

  lemma DeadRead(s: Session, inbound: Inbound, now: int)
    requires Inv(s, now) && Dead(s) && Started(Read, true) in s.tasks.chain
    ensures Sinks(s, Apply(s, ReadDone(inbound), now), now, 1)
  {
    SoleElement(s.tasks.chain, Started(Read, true));
    var t := OnReadDone(s, inbound);
    assert Apply(s, ReadDone(inbound), now) == t;
    assert ChainRank(s) == 10;
    assert ChainRank(t) <= 1;
    assert WaitRank(t, now) == WaitRank(s, now);
  }

  lemma DeadReadFailed(s: Session, live: bool, tickQueued: bool, now: int)
    requires Inv(s, now) && Dead(s) && Started(Read, live) in s.tasks.chain
    ensures Sinks(s, Apply(s, ReadFailed(live, tickQueued), now), now, 1)
  {
    DeadOpFailed(s, Read, live, now);
    WithoutInv(s, Read, live, now);
    CancelRank(Without(s, Read, live), tickQueued, now);
    assert Apply(s, ReadFailed(live, tickQueued), now) == CancelTimer(Without(s, Read, live), tickQueued);
  }

  lemma DeadCloseDone(s: Session, tickQueued: bool, now: int)
    requires Inv(s, now) && Dead(s)
    ensures Sinks(s, Apply(s, CloseDone(tickQueued), now), now, 0)
  {
    var closes := if s.closes > 0 then s.closes - 1 else 0;
    ClosesInv(s, closes, now);
    assert Rank(s.(closes := closes), now) == Rank(s, now);
    CancelRank(s.(closes := closes), tickQueued, now);
    assert Apply(s, CloseDone(tickQueued), now) == CancelTimer(s.(closes := closes), tickQueued);
  }

  lemma DeadAborted(s: Session, now: int)
    requires Inv(s, now) && Dead(s) && Aborted in s.tasks.waits
    ensures Sinks(s, Apply(s, TimerAborted, now), now, 1)
  {
    SoleElement(s.tasks.waits, Aborted);
  }

  lemma DeadLost(s: Session, now: int)
    requires Dead(s)
    ensures Sinks(s, Apply(s, TransportLost, now), now, 0)
  {
    assert ChainRank(s.(open := false)) == ChainRank(s);
  }

  function Drop(e: Event): nat { if HoldsSession(e) then 1 else 0 }

  lemma DeadChainStep(s: Session, e: Event, now: int)
    requires Inv(s, now) && Dead(s) && Enabled(s, e, now) && now > 0
    requires e.OpDone? || e.ReadDone? || e.ReadFailed?
    ensures Sinks(s, Apply(s, e, now), now, 1)
  {
    match e
    case OpDone(op, live, ok) => DeadOp(s, op, live, ok, now);
    case ReadDone(inbound) => DeadRead(s, inbound, now);
    case ReadFailed(live, tickQueued) => DeadReadFailed(s, live, tickQueued, now);
  }

  lemma DeadTimerStep(s: Session, e: Event, now: int)
    requires Inv(s, now) && Dead(s) && Enabled(s, e, now) && now > 0
    requires e.TimerFired? || e.TimerAborted?
    ensures Sinks(s, Apply(s, e, now), now, 1)
  {
    match e
    case TimerFired(due) => DeadTick(s, due, now);
    case TimerAborted => DeadAborted(s, now);
  }

  lemma DeadFreeStep(s: Session, e: Event, now: int)
    requires Inv(s, now) && Dead(s) && Enabled(s, e, now) && !HoldsSession(e)
    ensures Sinks(s, Apply(s, e, now), now, 0)
  {
    match e
    case CloseDone(tickQueued) => DeadCloseDone(s, tickQueued, now);
    case Pong => assert false;
    case TransportLost => DeadLost(s, now);
  }

  /** A dead session stays dead, and every callback that holds it lowers its rank. */
  lemma DeadStep(s: Session, e: Event, now: int)
    requires Inv(s, now) && Dead(s) && Enabled(s, e, now) && now > 0
    ensures Sinks(s, Apply(s, e, now), now, Drop(e))
  {
    if !HoldsSession(e) {
      DeadFreeStep(s, e, now);
    } else if e.TimerFired? || e.TimerAborted? {
      DeadTimerStep(s, e, now);
    } else {
      DeadChainStep(s, e, now);
    }
  }

  /** A dead session never sees another pong, so its pong age can only grow. */
  lemma DeadHearsNothing(s: Session, now: int)
    requires Dead(s)
    ensures !Enabled(s, Pong, now)
  {
  }

  /** While a dead session is still held, some callback that holds it can be delivered after waiting long enough. */
  lemma DeadProgress(s: Session, now: int) returns (e: Event, at: int)
    requires Inv(s, now) && Dead(s) && !Expired(s)
    ensures at >= now && HoldsSession(e) && Enabled(s, e, at)
  {
    if s.tasks.chain != multiset{} {
      var p :| p in s.tasks.chain;
      at := now;
      e := if p.op.Read? then ReadFailed(p.live, false) else OpDone(p.op, p.live, false);
    } else {
      var w :| w in s.tasks.waits;
      at := if w.Aborted? then now else Later(now, w.due);
      e := if w.Aborted? then TimerAborted else TimerFired(w.due);
    }
  }

  // ----- runs of one session -----------------------------------------------------------------

  predicate Holds(a: Action) { a.Callback? && HoldsSession(a.event) }

  function HoldingActions(actions: seq<Action>): nat {
    if actions == [] then 0
    else HoldingActions(actions[..|actions| - 1]) + if Holds(actions[|actions| - 1]) then 1 else 0
  }

  lemma DeadEnqueue(s: Session, request: Subscription, now: int)
    requires Dead(s)
    ensures Sinks(s, Enqueue(s, request), now, 0)
  {
  }

  lemma DeadAsk(s: Session, now: int)
    requires Dead(s)
    ensures Sinks(s, RequestClose(s), now, 0)
  {
  }

  lemma DeadAct(s: Session, a: Action, now: int)
    requires Inv(s, now) && Dead(s) && Can(s, a, now) && now > 0
    ensures Sinks(s, Act(s, a, now), now, if Holds(a) then 1 else 0)
  {
    match a
    case Callback(e) => DeadStep(s, e, now);
    case Accept(request) => DeadEnqueue(s, request, now);
    case AskToClose => DeadAsk(s, now);
  }

  lemma {:induction false} DeadRun(states: seq<Session>, actions: seq<Action>, times: seq<int>, n: nat)
    requires Run(states, actions, times) && n <= |actions| && times[0] > 0
    requires Inv(states[0], times[0]) && Dead(states[0])
    ensures Inv(states[n], times[n]) && Dead(states[n]) && times[0] <= times[n]
    ensures HoldingActions(actions[..n]) + Rank(states[n], times[n]) <= Rank(states[0], times[0])
  {
    RunInv(states, actions, times, n);
    if n > 0 {
      DeadRun(states, actions, times, n - 1);
      DeadAct(states[n - 1], actions[n - 1], times[n - 1]);
      RankInTime(states[n], times[n - 1], times[n]);
      assert actions[..n][..n - 1] == actions[..n - 1];
    }
  }

  /** Some callback that holds the session can still be delivered, now or after waiting. */
  ghost predicate Releasable(s: Session, now: int) {
    exists e: Event, at: int :: at >= now && HoldsSession(e) && SessionSpec.Enabled(s, e, at)
  }

  /** A dead session for which nothing more can be delivered has expired. */
  lemma StuckIsExpired(s: Session, now: int)
    requires Inv(s, now) && Dead(s)
    ensures !Releasable(s, now) <==> Expired(s)
  {
    if !Expired(s) {
      var e, at := DeadProgress(s, now);
    }
  }

  /**
   After its death a session runs at most fifteen more callbacks that hold it, whatever the owner asks of
   it meanwhile; and a run on which every callback that can still come has come ends with it expired.
   */
  lemma Released(states: seq<Session>, actions: seq<Action>, times: seq<int>)
    requires Run(states, actions, times) && times[0] > 0
    requires Inv(states[0], times[0]) && Dead(states[0])
    ensures var last, now := states[|actions|], times[|actions|];
      && HoldingActions(actions) <= Rank(states[0], times[0]) <= 15
      && (Expired(last) <==> !Releasable(last, now))
  {
    DeadRun(states, actions, times, |actions|);
    RankBound(states[0], times[0]);
    StuckIsExpired(states[|actions|], times[|actions|]);
    assert actions[..|actions|] == actions;
  }

  /** And from every dead state there is such a run, made of those callbacks alone. */
  lemma {:induction false} CanBeReleased(s: Session, now: int) returns (states: seq<Session>, actions: seq<Action>, times: seq<int>)
    requires Inv(s, now) && Dead(s) && now > 0
    ensures Run(states, actions, times) && states[0] == s && times[0] >= now && Expired(states[|actions|])
    ensures |actions| <= Rank(s, now) && forall a :: a in actions ==> Holds(a)
    decreases Rank(s, now)
  {
    if Expired(s) {
      states, actions, times := [s], [], [now];
    } else {
      var e, at := DeadProgress(s, now);
      var t := Apply(s, e, at);
      InvInTime(s, now, at);
      ApplyInv(s, e, at);
      DeadStep(s, e, at);
      RankInTime(s, now, at);
      var states', actions', times' := CanBeReleased(t, at);
      states, actions, times := [s] + states', [Callback(e)] + actions', [at] + times';
      Prepended(s, Callback(e), at, states', actions', times');
    }
  }

  lemma Prepended(s: Session, a: Action, at: int, states: seq<Session>, actions: seq<Action>, times: seq<int>)
    requires Run(states, actions, times) && Can(s, a, at) && states[0] == Act(s, a, at) && at <= times[0]
    ensures Run([s] + states, [a] + actions, [at] + times)
  {
    var states', actions', times' := [s] + states, [a] + actions, [at] + times;
    forall i | 0 <= i < |actions'|
      ensures times'[i] <= times'[i + 1] && Can(states'[i], actions'[i], times'[i]) && states'[i + 1] == Act(states'[i], actions'[i], times'[i])
    {
      if i > 0 {
        assert states'[i] == states[i - 1] && states'[i + 1] == states[i] && actions'[i] == actions[i - 1];
        assert times'[i] == times[i - 1] && times'[i + 1] == times[i];
      }
    }
  }

  /** The ways a session dies: a hard close, a lost transport, a failed write, a failed read, a message that cannot be handled. */
  lemma WhatKills(s: Session, e: Event, now: int)
    requires Inv(s, now) && Enabled(s, e, now)
    requires e.TransportLost? || e.ReadFailed? || (e.OpDone? && !e.ok) || (e.ReadDone? && e.inbound.Malformed?) || (e.TimerFired? && Stale(s, now))
    ensures Dead(Apply(s, e, now))
  {
    match e
    case OpDone(op, live, ok) => SoleElement(s.tasks.chain, Started(op, live));
    case ReadDone(inbound) => SoleElement(s.tasks.chain, Started(Read, true));
    case ReadFailed(live, tickQueued) => SoleElement(s.tasks.chain, Started(Read, live));
    case TimerFired(due) =>
    case TransportLost =>
  }
}
