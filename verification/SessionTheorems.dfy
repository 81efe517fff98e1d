/** What every run of one session guarantees: the order of frames on the wire, the queue and the hard close. */
module SessionTheorems {
  import opened Wrappers
  import opened SubscriptionCodec
  import opened SessionSpec
  import opened SessionProofs
  import opened SessionRuns

  // ----- frame order on the wire -------------------------------------------------------------

  /** What the invariant says about one frame: only the first goes out unprompted, and only a private session logs in with it. */
  predicate FrameInPlace(s: Session, i: nat)
    requires i < |s.wire| && s.wire[i].Sent?
  {
    && (s.wire[i].frame.LoginFrame? <==> s.isPrivate && i == 0)
    && (s.wire[i].frame.LoginFrame? ==> s.wire[i].frame.signedAt == s.connectedAtMs)
    && (!s.wire[i].frame.LoginFrame? ==> s.wire[i].frame.SubscribeFrame?)
    && (i > 0 ==> s.wire[i - 1].Received?)
  }

  lemma InvFrame(s: Session, now: int, i: nat)
    requires Inv(s, now) && i < |s.wire| && s.wire[i].Sent?
    ensures FrameInPlace(s, i)
  {
  }

  predicate Acked(wire: seq<WireEvent>) {
    exists i :: 0 <= i < |wire| && wire[i] == Received(LoginAck)
  }

  /** A subscribe went out while no successful login reply had arrived yet. */
  predicate SubscribedBeforeAck(wire: seq<WireEvent>) {
    exists i :: 0 <= i < |wire| && wire[i].Sent? && wire[i].frame.SubscribeFrame? && !Acked(wire[..i])
  }

  /** The first inbound message, unless malformed, flushes the queued request at once. */
  ghost predicate FirstFlush(s: Session) {
    s.isPrivate && s.wire != [] ==>
      if |s.wire| == 1 then s.pending != []
      else s.wire[1].Received? &&
           if s.wire[1].inbound.Malformed? then |s.wire| == 2 && s.tasks.chain == multiset{}
           else |s.wire| >= 3 && s.wire[2].Sent?
  }

  lemma StartFirstFlush(isPrivate: bool, request: Subscription, now: int)
    ensures FirstFlush(Start(isPrivate, request, now))
  {
  }

  lemma EnqueueFirstFlush(s: Session, sub: Subscription)
    requires FirstFlush(s)
    ensures FirstFlush(Enqueue(s, sub))
  {
  }

  lemma ReadFirstFlush(s: Session, inbound: Inbound, now: int)
    requires Inv(s, now) && FirstFlush(s) && Started(Read, true) in s.tasks.chain
    ensures FirstFlush(OnReadDone(s, inbound))
  {
    SoleElement(s.tasks.chain, Started(Read, true));
    ReadDoneFacts(s, inbound);
  }

  lemma ApplyFirstFlush(s: Session, e: Event, now: int)
    requires Inv(s, now) && Enabled(s, e, now) && FirstFlush(s)
    ensures FirstFlush(Apply(s, e, now))
  {
    if e.ReadDone? {
      ReadFirstFlush(s, e.inbound, now);
    } else if e.OpDone? && e.op.WsHandshake? && e.ok {
      SoleElement(s.tasks.chain, Started(WsHandshake, e.live));
    } else {
      QuietEvents(s, e, now);
    }
  }

  /**
   The header promises that subscriptions are written only after the login is acknowledged. The code
   flushes after any inbound message, so the promise holds exactly when the first inbound message is
   the successful login reply (or one that cannot be handled at all).
   */
  lemma AckBeforeSubscribe(s: Session, now: int)
    requires Inv(s, now) && FirstFlush(s) && s.isPrivate && |s.wire| >= 2
    ensures SubscribedBeforeAck(s.wire) <==> s.wire[1] != Received(LoginAck) && !s.wire[1].inbound.Malformed?
  {
    if s.wire[1] == Received(LoginAck) {
      forall i | 0 <= i < |s.wire| && s.wire[i].Sent? && s.wire[i].frame.SubscribeFrame?
        ensures Acked(s.wire[..i])
      {
        InvFrame(s, now, i);
        assert s.wire[..i][1] == Received(LoginAck);
      }
    } else if !s.wire[1].inbound.Malformed? {
      InvFrame(s, now, 2);
      assert s.wire[..2] == [s.wire[0], s.wire[1]];
      assert !Acked(s.wire[..2]);
    } else {
      assert !s.wire[0].frame.SubscribeFrame?;
    }
  }

  /** A handled message makes the session ask to close exactly when it is public with nothing acknowledged and nothing queued. */
  lemma IdleQuit(s: Session, now: int, inbound: Inbound)
    requires Inv(s, now) && Started(Read, true) in s.tasks.chain && !inbound.Malformed?
    ensures var t := OnReadDone(s, inbound);
      t.closes > s.closes <==> !s.isPrivate && s.pending == [] && t.acked == []
  {
    SoleElement(s.tasks.chain, Started(Read, true));
    ReadDoneFacts(s, inbound);
  }

  // ----- runs of one session, public or private ------------------------------------------------

  /** What neither a message nor a failed or ordinary operation touches. */
  predicate SameHealth(s: Session, t: Session) {
    && t.isPrivate == s.isPrivate && t.connectedAtMs == s.connectedAtMs && t.lastPongMs == s.lastPongMs
    && t.staleClosed == s.staleClosed && t.open == s.open
  }

  lemma ReadHealth(s: Session, inbound: Inbound)
    ensures SameHealth(s, OnReadDone(s, inbound))
  {
  }

  lemma OpHealth(s: Session, op: Op, live: bool, ok: bool, now: int)
    requires !(op.WsHandshake? && ok)
    ensures SameHealth(s, OnOpDone(s, op, live, ok, now))
  {
  }

  lemma OpenHealth(s: Session, live: bool, now: int)
    ensures SameHealth(s.(connectedAtMs := now), Apply(s, OpDone(WsHandshake, live, true), now))
  {
    OpenedFacts(s, live, now);
  }

  lemma TickHealth(s: Session, due: int, now: int)
    ensures SameHealth(s.(staleClosed := s.staleClosed || Stale(s, now), open := s.open && !Stale(s, now)), Apply(s, TimerFired(due), now))
  {
  }

  lemma OtherHealth(s: Session, e: Event, now: int)
    requires e.ReadFailed? || e.TimerAborted? || e.CloseDone?
    ensures SameHealth(s, Apply(s, e, now))
  {
  }

  /** The five fields after any callback. */
  function Health(s: Session, e: Event, now: int): Session {
    if Opens(e) then s.(connectedAtMs := now)
    else if e.TimerFired? then s.(staleClosed := s.staleClosed || Stale(s, now), open := s.open && !Stale(s, now))
    else if e.Pong? then s.(lastPongMs := now)
    else if e.TransportLost? then s.(open := false)
    else s
  }

  lemma CallbackHealth(s: Session, e: Event, now: int)
    ensures SameHealth(Health(s, e, now), Apply(s, e, now))
  {
    if e.ReadDone? {
      ReadHealth(s, e.inbound);
    } else if Opens(e) {
      OpenHealth(s, e.live, now);
    } else if e.OpDone? {
      OpHealth(s, e.op, e.live, e.ok, now);
    } else if e.TimerFired? {
      TickHealth(s, e.due, now);
    } else if e.ReadFailed? || e.TimerAborted? || e.CloseDone? {
      OtherHealth(s, e, now);
    }
  }

  lemma ActKeepsKind(s: Session, a: Action, now: int)
    ensures Act(s, a, now).isPrivate == s.isPrivate
  {
    if a.Callback? {
      CallbackHealth(s, a.event, now);
    }
  }

  lemma {:induction false} KindKept(states: seq<Session>, actions: seq<Action>, times: seq<int>, n: nat)
    requires Run(states, actions, times) && n <= |actions|
    ensures states[n].isPrivate == states[0].isPrivate
  {
    if n > 0 {
      KindKept(states, actions, times, n - 1);
      ActKeepsKind(states[n - 1], actions[n - 1], times[n - 1]);
    }
  }

  lemma LifeInv(states: seq<Session>, actions: seq<Action>, times: seq<int>, isPrivate: bool, request: Subscription, n: nat)
    requires Life(states, actions, times, isPrivate, request) && n <= |actions|
    ensures Inv(states[n], times[n]) && states[n].isPrivate == isPrivate && times[n] > 0
  {
    LifeStartInv(states, actions, times, isPrivate, request);
    RunInv(states, actions, times, n);
    KindKept(states, actions, times, n);
  }

  /**
   On every run each frame has its place: a private session writes a login first and no other, and nothing
   but single subscribes afterwards; a public session writes subscribes only; no frame is empty, and every
   frame but the first directly follows an inbound message.
   */
  lemma FramesOnLives(states: seq<Session>, actions: seq<Action>, times: seq<int>, isPrivate: bool, request: Subscription, n: nat, i: nat)
    requires Life(states, actions, times, isPrivate, request) && n <= |actions|
    requires i < |states[n].wire| && states[n].wire[i].Sent?
    ensures states[n].isPrivate == isPrivate && FrameInPlace(states[n], i)
  {
    LifeInv(states, actions, times, isPrivate, request, n);
    InvFrame(states[n], times[n], i);
  }

  /** A handshake finds an empty wire; anything else keeps the connection time and writes nothing on an empty wire. */
  predicate WireStep(s: Session, t: Session, a: Action, now: int) {
    if a.Callback? && Opens(a.event) then s.wire == [] && t.connectedAtMs == now
    else t.connectedAtMs == s.connectedAtMs && (s.wire == [] ==> t.wire == [])
  }

  lemma ActWire(s: Session, a: Action, now: int)
    requires Inv(s, now) && Can(s, a, now)
    ensures WireStep(s, Act(s, a, now), a, now)
  {
    if a.Callback? {
      CallbackHealth(s, a.event, now);
      if !a.event.ReadDone? && !Opens(a.event) {
        QuietEvents(s, a.event, now);
      }
    }
  }

  lemma {:induction false} LastOpening(states: seq<Session>, actions: seq<Action>, times: seq<int>, n: nat) returns (k: nat)
    requires n <= |actions| < |states| && |actions| < |times| && states[0].wire == [] && states[n].wire != []
    requires forall i :: 0 <= i < n ==> WireStep(states[i], states[i + 1], actions[i], times[i])
    ensures k < n && actions[k].Callback? && Opens(actions[k].event) && times[k] == states[n].connectedAtMs && states[k].wire == []
  {
    k := n - 1;
    assert WireStep(states[k], states[k + 1], actions[k], times[k]);
    if !(actions[k].Callback? && Opens(actions[k].event)) {
      k := LastOpening(states, actions, times, n - 1);
    }
  }

  /** The login is signed afresh: its time is that of a handshake before which nothing had been written. */
  lemma SignedAtHandshake(
      states: seq<Session>, actions: seq<Action>, times: seq<int>, isPrivate: bool, request: Subscription, n: nat) returns (k: nat)
    requires Life(states, actions, times, isPrivate, request) && n <= |actions| && states[n].wire != []
    ensures k < n && actions[k].Callback? && Opens(actions[k].event) && times[k] == states[n].connectedAtMs && states[k].wire == []
  {
    forall i | 0 <= i < n ensures WireStep(states[i], states[i + 1], actions[i], times[i]) {
      LifeInv(states, actions, times, isPrivate, request, i);
      ActWire(states[i], actions[i], times[i]);
    }
    LifeStartInv(states, actions, times, isPrivate, request);
    k := LastOpening(states, actions, times, n);
  }

  /** At every moment of every run: one operation and one wait at most, and nothing accepted lost, reordered or queued twice. */
  lemma QueueOnLives(states: seq<Session>, actions: seq<Action>, times: seq<int>, isPrivate: bool, request: Subscription, n: nat)
    requires Life(states, actions, times, isPrivate, request) && n <= |actions|
    ensures var s := states[n];
      && |s.tasks.chain| <= 1 && |s.tasks.waits| <= 1
      && s.accepted == Requests(s.wire) + s.pending
      && forall i, j :: 0 <= i < j < |s.pending| ==> s.pending[i] != s.pending[j]
  {
    LifeInv(states, actions, times, isPrivate, request, n);
  }

  /** Once the handshake is over, and on a private session always, the moments to flush are exactly the messages handled without a parse failure. */
  lemma FlushesAreMessages(s: Session, a: Action, now: int)
    requires Inv(s, now) && Can(s, a, now) && (s.isPrivate || s.connectedAtMs > 0)
    ensures Flushes(s, a) <==> a.Callback? && a.event.ReadDone? && !a.event.inbound.Malformed?
  {
  }

  // ----- health on runs ------------------------------------------------------------------------

  /** What brings the pong age back to zero. */
  predicate Hears(a: Action) { a.Callback? && (a.event.Pong? || Opens(a.event)) }

  predicate BaseStep(s: Session, t: Session, a: Action, now: int) {
    Base(t) >= Base(s) && (Hears(a) ==> Base(t) >= now)
  }

  lemma ActBase(s: Session, a: Action, now: int)
    requires Inv(s, now) && Can(s, a, now)
    ensures BaseStep(s, Act(s, a, now), a, now)
  {
    if a.Callback? {
      CallbackHealth(s, a.event, now);
      BaseOfHealth(s, Apply(s, a.event, now), a.event, now);
    }
  }

  lemma BaseOfHealth(s: Session, t: Session, e: Event, now: int)
    requires SameHealth(Health(s, e, now), t) && s.connectedAtMs <= now && s.lastPongMs <= now
    ensures BaseStep(s, t, Callback(e), now)
  {
  }

  lemma {:induction false} BaseAlong(states: seq<Session>, actions: seq<Action>, times: seq<int>, j: nat, k: nat)
    requires j < k <= |actions| < |states| && |actions| < |times| && Hears(actions[j])
    requires forall i :: 0 <= i < k ==> BaseStep(states[i], states[i + 1], actions[i], times[i])
    ensures Base(states[k]) >= times[j]
  {
    assert BaseStep(states[k - 1], states[k], actions[k - 1], times[k - 1]);
    if j < k - 1 {
      BaseAlong(states, actions, times, j, k - 1);
    }
  }

  lemma HeardSince(states: seq<Session>, actions: seq<Action>, times: seq<int>, j: nat, k: nat)
    requires Run(states, actions, times) && times[0] > 0 && Inv(states[0], times[0])
    requires j < k <= |actions| && Hears(actions[j])
    ensures Base(states[k]) >= times[j]
  {
    forall i | 0 <= i < k ensures BaseStep(states[i], states[i + 1], actions[i], times[i]) {
      RunInv(states, actions, times, i);
      ActBase(states[i], actions[i], times[i]);
    }
    BaseAlong(states, actions, times, j, k);
  }

  /** A tick that finds the session stale. */
  predicate StaleTick(s: Session, a: Action, now: int) {
    a.Callback? && a.event.TimerFired? && Stale(s, now)
  }

  predicate Loses(a: Action) { a.Callback? && a.event.TransportLost? }

  predicate CloseStep(s: Session, t: Session, a: Action, now: int) {
    && (t.staleClosed <==> s.staleClosed || StaleTick(s, a, now))
    && (!t.open <==> !s.open || StaleTick(s, a, now) || Loses(a))
  }

  lemma ActCloses(s: Session, a: Action, now: int)
    ensures CloseStep(s, Act(s, a, now), a, now)
  {
    if a.Callback? {
      CallbackHealth(s, a.event, now);
      CloseOfHealth(s, Apply(s, a.event, now), a.event, now);
    }
  }

  lemma CloseOfHealth(s: Session, t: Session, e: Event, now: int)
    requires SameHealth(Health(s, e, now), t)
    ensures CloseStep(s, t, Callback(e), now)
  {
  }

  lemma {:induction false} ClosesAlong(states: seq<Session>, actions: seq<Action>, times: seq<int>, n: nat)
    requires n <= |actions| < |states| && |actions| < |times| && !states[0].staleClosed && states[0].open
    requires forall i :: 0 <= i < n ==> CloseStep(states[i], states[i + 1], actions[i], times[i])
    ensures states[n].staleClosed <==> exists k :: 0 <= k < n && StaleTick(states[k], actions[k], times[k])
    ensures !states[n].open <==> exists k :: 0 <= k < n && (StaleTick(states[k], actions[k], times[k]) || Loses(actions[k]))
  {
    if n > 0 {
      ClosesAlong(states, actions, times, n - 1);
      assert CloseStep(states[n - 1], states[n], actions[n - 1], times[n - 1]);
    }
  }

  /** On every run a session was hard-closed if and only if a tick found it stale, and its transport is down only for that or because it was lost. */
  lemma ClosedExactly(states: seq<Session>, actions: seq<Action>, times: seq<int>, n: nat)
    requires Run(states, actions, times) && n <= |actions| && !states[0].staleClosed && states[0].open
    ensures states[n].staleClosed <==> exists k :: 0 <= k < n && StaleTick(states[k], actions[k], times[k])
    ensures !states[n].open <==> exists k :: 0 <= k < n && (StaleTick(states[k], actions[k], times[k]) || Loses(actions[k]))
  {
    forall i | 0 <= i < n ensures CloseStep(states[i], states[i + 1], actions[i], times[i]) {
      ActCloses(states[i], actions[i], times[i]);
    }
    ClosesAlong(states, actions, times, n);
  }

  /** Each tick comes at most 60 s after a pong or the handshake. */
  ghost predicate PongsKeepUp(actions: seq<Action>, times: seq<int>)
    requires |times| == |actions| + 1
  {
    forall k :: 0 <= k < |actions| && actions[k].Callback? && actions[k].event.TimerFired? ==> HeardWithin(actions, times, k)
  }

  ghost predicate HeardWithin(actions: seq<Action>, times: seq<int>, k: nat)
    requires k < |actions| < |times|
  {
    exists j :: 0 <= j < k && Hears(actions[j]) && times[k] - times[j] <= STALE_AFTER_MS
  }

  /** A session that hears a pong at least every 60 s is never hard-closed, over its whole run. */
  lemma PongsKeepOpen(states: seq<Session>, actions: seq<Action>, times: seq<int>, isPrivate: bool, request: Subscription, n: nat)
    requires Life(states, actions, times, isPrivate, request) && n <= |actions| && PongsKeepUp(actions, times)
    ensures !states[n].staleClosed && (states[n].open <==> forall k :: 0 <= k < n ==> !Loses(actions[k]))
  {
    LifeStartInv(states, actions, times, isPrivate, request);
    forall k | 0 <= k < n ensures !StaleTick(states[k], actions[k], times[k]) {
      if actions[k].Callback? && actions[k].event.TimerFired? {
        assert HeardWithin(actions, times, k);
        var j :| 0 <= j < k && Hears(actions[j]) && times[k] - times[j] <= STALE_AFTER_MS;
        HeardSince(states, actions, times, j, k);
      }
    }
    ClosedExactly(states, actions, times, n);
  }

  // ----- what single callbacks leave behind ----------------------------------------------------

  /** The age is measured from the later of handshake and last pong: a session is stale exactly when both are more than 60 s ago. */
  lemma StaleExactly(s: Session, now: int)
    requires Inv(s, now)
    ensures Stale(s, now) <==> s.connectedAtMs > 0 && now - s.connectedAtMs > STALE_AFTER_MS && now - s.lastPongMs > STALE_AFTER_MS
  {
  }

  /** A failed write ends the chain but leaves timer and pong age alone, so the session stays held exactly while a wait is outstanding. */
  lemma WriteFailureKeepsTimer(s: Session, live: bool, now: int)
    requires Inv(s, now) && Started(Write, live) in s.tasks.chain
    ensures var t := Apply(s, OpDone(Write, live, false), now);
      && t.tasks.chain == multiset{} && t.tasks.waits == s.tasks.waits && Base(t) == Base(s) && t.open == s.open
      && (Expired(t) <==> s.tasks.waits == multiset{})
  {
    SoleElement(s.tasks.chain, Started(Write, live));
  }

  /** A failed read ends chain and timer: what stays is the aborted wait, or the one tick that was queued already. */
  lemma ReadFailureStopsTimer(s: Session, live: bool, tickQueued: bool, now: int)
    requires Inv(s, now) && SessionSpec.Enabled(s, ReadFailed(live, tickQueued), now)
    ensures var t := Apply(s, ReadFailed(live, tickQueued), now);
      && t.tasks.chain == multiset{}
      && (forall w :: w in t.tasks.waits && w.Armed? ==> tickQueued && w.due <= now)
      && (t.tasks.waits == multiset{} <==> s.tasks.waits == multiset{})
      && (!tickQueued && !Expired(t) ==> Expired(Apply(t, TimerAborted, now)))
  {
    SoleElement(s.tasks.chain, Started(Read, live));
    var t := Apply(s, ReadFailed(live, tickQueued), now);
    if !tickQueued && s.tasks.waits != multiset{} {
      assert t.tasks.waits == multiset{Aborted};
      assert DropWait(t.tasks, Aborted).waits == multiset{};
    }
  }

  /** A completed close stops the timer in the same way but leaves the chain to fail by itself. */
  lemma CloseStopsTimer(s: Session, tickQueued: bool, now: int)
    requires Inv(s, now) && SessionSpec.Enabled(s, CloseDone(tickQueued), now)
    ensures var t := Apply(s, CloseDone(tickQueued), now);
      && t.tasks.chain == s.tasks.chain && t.closes == s.closes - 1
      && (forall w :: w in t.tasks.waits && w.Armed? ==> tickQueued && w.due <= now)
      && (t.timerCancelled <==> s.timerCancelled || (!tickQueued && s.tasks.waits != multiset{}))
  {
  }

  /** The first tick is due 20 s after the session was created, not after its handshake, so a slow connect is followed by a tick at once. */
  lemma FirstTick(s: Session, live: bool, now: int)
    requires Inv(s, now) && SessionSpec.Enabled(s, OpDone(WsHandshake, live, true), now)
    ensures var t, due := Apply(s, OpDone(WsHandshake, live, true), now), s.createdAt + 20_000;
      && t.tasks.waits == multiset{Armed(due)}
      && (SessionSpec.Enabled(t, TimerFired(due), now) <==> now - s.createdAt >= 20_000)
  {
    OpenedFacts(s, live, now);
  }
}
